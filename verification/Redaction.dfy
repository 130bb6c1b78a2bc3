/** Ground-truth redaction of evaluator projections, packages/research/src/target-adapter.ts. */
module Redaction {
  import opened Wrappers
  import opened Numerals
  import opened Keys

  /** A JSON value as the code iterates over it: object fields in order. */
  datatype Value =
    | Null
    | Bool(flag: bool)
    | Number(number: real)
    | Text(text: string)
    | List(items: seq<Value>)
    | Object(fields: seq<Field>)

  datatype Field = Field(key: string, value: Value)

  predicate DistinctKeys(fields: seq<Field>) {
    forall i, j :: 0 <= i < j < |fields| ==> fields[i].key != fields[j].key
  }

  /** What every JavaScript object satisfies: no key twice. */
  predicate WellFormed(v: Value) {
    match v
    case List(items) => forall i :: 0 <= i < |items| ==> WellFormed(items[i])
    case Object(fields) => DistinctKeys(fields) && forall i :: 0 <= i < |fields| ==> WellFormed(fields[i].value)
    case _ => true
  }

  // ---- Keys ----

  /** The one key that assignment to an object property does not store. */
  const PROTO := "__proto__"

  predicate Dropped(key: string) { Forbidden(key) || key == PROTO }

  // ---- Redaction ----

  /** result[key] = value on an ordinary object: overwrite in place, or append; the
      prototype key sets the prototype and leaves the own fields alone. */
  function Assign(fields: seq<Field>, key: string, value: Value): seq<Field> {
    if key == PROTO then fields
    else if fields == [] then [Field(key, value)]
    else if fields[0].key == key then [Field(key, value)] + fields[1..]
    else [fields[0]] + Assign(fields[1..], key, value)
  }

  function Redacted(v: Value): Value {
    match v
    case List(items) => List(RedactedItems(items))
    case Object(fields) => Object(RedactedFields(fields))
    case _ => v
  }

  function RedactedItems(items: seq<Value>): (out: seq<Value>)
    ensures |out| == |items|
    ensures forall i :: 0 <= i < |items| ==> out[i] == Redacted(items[i])
  {
    if items == [] then [] else [Redacted(items[0])] + RedactedItems(items[1..])
  }

  function RedactedFields(fields: seq<Field>): (out: seq<Field>)
    ensures forall i :: 0 <= i < |out| ==> !Dropped(out[i].key) && HasKey(fields, out[i].key)
  {
    if fields == [] then []
    else (if Dropped(fields[0].key) then [] else [Field(fields[0].key, Redacted(fields[0].value))])
         + RedactedFields(fields[1..])
  }

  predicate HasKey(fields: seq<Field>, key: string) { exists i :: 0 <= i < |fields| && fields[i].key == key }

  /** The loop over Object.entries, with its assignments into a fresh object. */
  method RedactGroundTruth(value: Value) returns (result: Value)
    requires WellFormed(value)
    ensures result == Redacted(value)
    decreases value
  {
    match value
    case List(items) =>
      var out: seq<Value> := [];
      for i := 0 to |items|
        invariant |out| == i && forall j :: 0 <= j < i ==> out[j] == Redacted(items[j])
      {
        var item := RedactGroundTruth(items[i]);
        out := out + [item];
      }
      assert out == RedactedItems(items);
      result := List(out);
    case Object(fields) =>
      var out: seq<Field> := [];
      for i := 0 to |fields|
        invariant out == RedactedFields(fields[..i])
      {
        RedactedFieldsAppend(fields[..i], fields[i]);
        assert fields[..i + 1] == fields[..i] + [fields[i]];
        if !Forbidden(fields[i].key) {
          var nested := RedactGroundTruth(fields[i].value);
          AssignAppends(out, fields[i].key, nested);
          out := Assign(out, fields[i].key, nested);
        }
      }
      assert fields[..|fields|] == fields;
      result := Object(out);
    case _ => result := value;
  }

  lemma {:induction false} AssignAppends(fields: seq<Field>, key: string, value: Value)
    requires !HasKey(fields, key)
    ensures Assign(fields, key, value) == if key == PROTO then fields else fields + [Field(key, value)]
  {
    if key != PROTO && fields != [] {
      assert fields[0].key != key;
      forall i | 0 <= i < |fields| - 1 ensures fields[1..][i].key != key { assert fields[i + 1].key != key; }
      AssignAppends(fields[1..], key, value);
    }
  }

  lemma {:induction false} RedactedFieldsAppend(fields: seq<Field>, f: Field)
    ensures RedactedFields(fields + [f]) ==
            RedactedFields(fields) + (if Dropped(f.key) then [] else [Field(f.key, Redacted(f.value))])
  {
    hide Dropped, Redacted, HasKey;
    if fields == [] {
      assert fields + [f] == [f];
    } else {
      RedactedFieldsAppend(fields[1..], f);
      assert (fields + [f])[1..] == fields[1..] + [f];
    }
  }

  // ---- Looking up paths ----

  datatype Step = Key(key: string) | Index(index: nat)

  function Find(fields: seq<Field>, key: string): (found: Option<Value>)
    ensures found.Some? ==> exists i :: 0 <= i < |fields| && fields[i] == Field(key, found.value)
    ensures found.None? <==> !HasKey(fields, key)
  {
    if fields == [] then None
    else if fields[0].key == key then assert fields[0] == Field(key, fields[0].value); Some(fields[0].value)
    else
      var rest := Find(fields[1..], key);
      assert rest.Some? ==> fields[1..][0..] == fields[1..];
      rest
  }

  function Lookup(v: Value, path: seq<Step>): Option<Value>
    decreases |path|
  {
    if path == [] then Some(v)
    else
      match path[0]
      case Key(k) =>
        if !v.Object? then None
        else
          var found := Find(v.fields, k);
          if found.None? then None else Lookup(found.value, path[1..])
      case Index(i) => if v.List? && i < |v.items| then Lookup(v.items[i], path[1..]) else None
  }

  predicate CrossesDropped(path: seq<Step>) { exists i :: 0 <= i < |path| && path[i].Key? && Dropped(path[i].key) }

  lemma {:induction false} FindRedacted(fields: seq<Field>, key: string)
    ensures Find(RedactedFields(fields), key) ==
            if Dropped(key) then None
            else if Find(fields, key).None? then None
            else Some(Redacted(Find(fields, key).value))
  {
    hide Dropped, Redacted;
    if fields != [] {
      FindRedacted(fields[1..], key);
      FindCons(fields[0], fields[1..], key);
      var f, rest := fields[0], RedactedFields(fields[1..]);
      assert fields == [f] + fields[1..];
      FindCons(Field(f.key, Redacted(f.value)), rest, key);
      assert RedactedFields(fields) == (if Dropped(f.key) then [] else [Field(f.key, Redacted(f.value))]) + rest;
      assert Dropped(f.key) ==> RedactedFields(fields) == rest;
    }
  }

  lemma FindCons(f: Field, rest: seq<Field>, key: string)
    ensures Find([f] + rest, key) == if f.key == key then Some(f.value) else Find(rest, key)
  {
    assert ([f] + rest)[1..] == rest;
  }

  /** Redaction is exact: a path that crosses no dropped key finds the redaction of what
      it found before, and a path that crosses one finds nothing. */
  lemma {:induction false} RedactionIsExact(v: Value, path: seq<Step>)
    ensures Lookup(Redacted(v), path) ==
            if CrossesDropped(path) then None
            else if Lookup(v, path).None? then None
            else Some(Redacted(Lookup(v, path).value))
    decreases |path|
  {
    if path != [] {
      var rest := path[1..];
      assert CrossesDropped(path) <==> (path[0].Key? && Dropped(path[0].key)) || CrossesDropped(rest) by {
        if CrossesDropped(path) && !(path[0].Key? && Dropped(path[0].key)) {
          var i :| 0 <= i < |path| && path[i].Key? && Dropped(path[i].key);
          assert rest[i - 1] == path[i];
        }
        if CrossesDropped(rest) {
          var i :| 0 <= i < |rest| && rest[i].Key? && Dropped(rest[i].key);
          assert path[i + 1] == rest[i];
        }
      }
      match path[0]
      case Key(k) =>
        if v.Object? {
          FindRedacted(v.fields, k);
          var found := Find(v.fields, k);
          if found.Some? { RedactionIsExact(found.value, rest); }
        }
      case Index(i) =>
        if v.List? && i < |v.items| { RedactionIsExact(v.items[i], rest); }
    }
  }

  // ---- The leak detector ----

  /** The paths of all forbidden keys, parents before children. */
  function FindForbidden(v: Value, path: string): seq<string> {
    match v
    case List(items) => FindInItems(items, path, 0)
    case Object(fields) => FindInFields(fields, path)
    case _ => []
  }

  function FindInItems(items: seq<Value>, path: string, index: nat): seq<string> {
    if items == [] then []
    else FindForbidden(items[0], path + "[" + Decimal(index) + "]") + FindInItems(items[1..], path, index + 1)
  }

  function FindInFields(fields: seq<Field>, path: string): seq<string> {
    if fields == [] then []
    else
      var f := fields[0];
      (if Forbidden(f.key) then [path + "." + f.key] else [])
        + FindForbidden(f.value, path + "." + f.key) + FindInFields(fields[1..], path)
  }

  function Rendered(steps: seq<Step>): string {
    if steps == [] then ""
    else
      (match steps[0]
       case Key(k) => "." + k
       case Index(i) => "[" + Decimal(i) + "]") + Rendered(steps[1..])
  }

  /** These steps lead to a field of v, and its key is forbidden. */
  predicate LeadsToForbidden(v: Value, steps: seq<Step>) {
    && |steps| > 0 && steps[|steps| - 1].Key? && Forbidden(steps[|steps| - 1].key)
    && Lookup(v, steps).Some?
  }

  /** The detector lists exactly the written-out paths of the fields with forbidden keys. */
  lemma DetectorListsExactly(v: Value, path: string, found: string)
    requires WellFormed(v)
    ensures found in FindForbidden(v, path)
            <==> exists steps :: LeadsToForbidden(v, steps) && found == path + Rendered(steps)
  {
    if found in FindForbidden(v, path) { var steps := StepsOf(v, path, found); }
    forall steps | LeadsToForbidden(v, steps) && found == path + Rendered(steps)
      ensures found in FindForbidden(v, path)
    {
      StepsAreListed(v, path, steps);
    }
  }

  lemma {:induction false} StepsOf(v: Value, path: string, found: string) returns (steps: seq<Step>)
    requires WellFormed(v) && found in FindForbidden(v, path)
    ensures LeadsToForbidden(v, steps) && found == path + Rendered(steps)
    decreases v, 1
  {
    hide Forbidden, Rendered, Lookup, LeadsToForbidden, Decimal;
    match v
    case List(items) =>
      var i, rest := ItemStepsOf(items, path, 0, found);
      OneIndex(v, i);
      steps := Prepend(v, Index(i), items[i], rest, path, found);
    case Object(fields) =>
      steps := FieldStepsOf(fields, path, found);
  }

  lemma OneIndex(v: Value, i: nat)
    requires v.List? && i < |v.items|
    ensures Lookup(v, [Index(i)]) == Some(v.items[i]) && Rendered([Index(i)]) == "[" + Decimal(i) + "]"
  {
    assert Lookup(v.items[i], []) == Some(v.items[i]);
    assert [Index(i)][1..] == [];
  }

  /** One step in front of steps that start from what it leads to. */
  lemma Prepend(v: Value, first: Step, next: Value, rest: seq<Step>, path: string, found: string)
    returns (steps: seq<Step>)
    requires Lookup(v, [first]) == Some(next) && LeadsToForbidden(next, rest)
    requires found == path + Rendered([first]) + Rendered(rest)
    ensures LeadsToForbidden(v, steps) && found == path + Rendered(steps)
  {
    hide Forbidden;
    steps := [first] + rest;
    assert steps[1..] == rest;
    assert [first][1..] == [];
    assert Rendered(steps) == Rendered([first]) + Rendered(rest);
  }

  lemma {:induction false} ItemStepsOf(items: seq<Value>, path: string, index: nat, found: string)
    returns (i: nat, steps: seq<Step>)
    requires forall j :: 0 <= j < |items| ==> WellFormed(items[j])
    requires found in FindInItems(items, path, index)
    ensures i < |items| && LeadsToForbidden(items[i], steps)
    ensures found == path + "[" + Decimal(index + i) + "]" + Rendered(steps)
    decreases items, 0
  {
    hide Forbidden, WellFormed;
    if found in FindForbidden(items[0], path + "[" + Decimal(index) + "]") {
      i := 0;
      steps := StepsOf(items[0], path + "[" + Decimal(index) + "]", found);
    } else {
      i, steps := ItemStepsOf(items[1..], path, index + 1, found);
      i := i + 1;
    }
  }

  lemma {:induction false} FieldStepsOf(fields: seq<Field>, path: string, found: string) returns (steps: seq<Step>)
    requires WellFormed(Object(fields)) && found in FindInFields(fields, path)
    ensures LeadsToForbidden(Object(fields), steps) && found == path + Rendered(steps)
    decreases fields, 0
  {
    hide Forbidden;
    var f, v := fields[0], Object(fields);
    assert Lookup(v, [Key(f.key)]) == Some(f.value);
    assert Rendered([Key(f.key)]) == "." + f.key;
    if Forbidden(f.key) && found == path + "." + f.key {
      steps := [Key(f.key)];
    } else if found in FindForbidden(f.value, path + "." + f.key) {
      steps := StepsOf(f.value, path + "." + f.key, found);
      assert found == path + Rendered([Key(f.key)]) + Rendered(steps);
      steps := Prepend(v, Key(f.key), f.value, steps, path, found);
    } else {
      steps := FieldStepsOf(fields[1..], path, found);
      SkipsFirst(fields, steps);
    }
  }

  lemma SkipsFirst(fields: seq<Field>, steps: seq<Step>)
    requires fields != [] && DistinctKeys(fields) && steps != [] && Lookup(Object(fields[1..]), steps).Some?
    ensures Lookup(Object(fields), steps) == Lookup(Object(fields[1..]), steps)
  {
    assert steps[0].Key?;
    assert Find(fields[1..], steps[0].key).Some?;
  }

  lemma RenderFirst(path: string, steps: seq<Step>)
    requires steps != []
    ensures steps[0].Key? ==> path + Rendered(steps) == path + "." + steps[0].key + Rendered(steps[1..])
    ensures steps[0].Index? ==>
              path + Rendered(steps) == path + "[" + Decimal(steps[0].index) + "]" + Rendered(steps[1..])
  {
    match steps[0]
    case Key(k) => Regroup(path, ".", k, "", Rendered(steps[1..]));
    case Index(i) => Regroup(path, "[", Decimal(i), "]", Rendered(steps[1..]));
  }

  lemma Regroup(a: string, b: string, c: string, d: string, e: string)
    ensures a + (b + c + d + e) == a + b + c + d + e
    ensures b + c + "" == b + c
    ensures a + b + c + "" == a + b + c
  {
    ConcatAssociates(a, b + c + d, e);
    ConcatAssociates(a, b + c, d);
    ConcatAssociates(a, b, c);
  }

  /** What the rest of the steps does after the first one. */
  lemma StepInto(v: Value, steps: seq<Step>)
    requires LeadsToForbidden(v, steps)
    ensures steps[0].Index? ==>
              v.List? && steps[0].index < |v.items| && LeadsToForbidden(v.items[steps[0].index], steps[1..])
    ensures steps[0].Key? ==>
              && v.Object? && Find(v.fields, steps[0].key).Some?
              && if |steps| == 1 then Forbidden(steps[0].key)
                 else LeadsToForbidden(Find(v.fields, steps[0].key).value, steps[1..])
  {
    hide Forbidden;
  }

  lemma {:induction false} StepsAreListed(v: Value, path: string, steps: seq<Step>)
    requires LeadsToForbidden(v, steps)
    ensures path + Rendered(steps) in FindForbidden(v, path)
    decreases |steps|, 1
  {
    hide Forbidden, Rendered, Lookup, Decimal, FindInItems, FindInFields;
    StepInto(v, steps);
    RenderFirst(path, steps);
    match steps[0]
    case Index(i) => ItemIsListed(v.items, path, 0, i, steps[1..]);
    case Key(k) => FieldIsListed(v.fields, path, k, steps[1..]);
  }

  lemma {:induction false} ItemIsListed(items: seq<Value>, path: string, index: nat, i: nat, rest: seq<Step>)
    requires i < |items| && LeadsToForbidden(items[i], rest)
    ensures path + "[" + Decimal(index + i) + "]" + Rendered(rest) in FindInItems(items, path, index)
    decreases |rest|, 2 + i
  {
    hide Forbidden;
    if i == 0 {
      StepsAreListed(items[0], path + "[" + Decimal(index) + "]", rest);
    } else {
      ItemIsListed(items[1..], path, index + 1, i - 1, rest);
    }
  }

  lemma {:induction false} FieldIsListed(fields: seq<Field>, path: string, key: string, rest: seq<Step>)
    requires Find(fields, key).Some?
    requires if rest == [] then Forbidden(key) else LeadsToForbidden(Find(fields, key).value, rest)
    ensures path + "." + key + Rendered(rest) in FindInFields(fields, path)
    decreases |rest|, 2 + |fields|
  {
    hide Forbidden;
    if fields[0].key == key {
      if rest == [] {
        assert path + "." + key + Rendered(rest) == path + "." + key;
      } else {
        StepsAreListed(fields[0].value, path + "." + key, rest);
      }
    } else {
      FieldIsListed(fields[1..], path, key, rest);
    }
  }

  datatype KeyClass = ForbiddenKeys | PrototypeKey | DroppedKeys

  predicate Bad(keys: KeyClass, key: string) {
    match keys
    case ForbiddenKeys => Forbidden(key)
    case PrototypeKey => key == PROTO
    case DroppedKeys => Dropped(key)
  }

  /** No object anywhere in v owns a key of this class. */
  predicate Free(v: Value, bad: KeyClass) {
    match v
    case List(items) => forall i :: 0 <= i < |items| ==> Free(items[i], bad)
    case Object(fields) =>
      forall i :: 0 <= i < |fields| ==> !Bad(bad, fields[i].key) && Free(fields[i].value, bad)
    case _ => true
  }

  lemma {:induction false} FindsNothingIffFree(v: Value, path: string)
    ensures FindForbidden(v, path) == [] <==> Free(v, ForbiddenKeys)
    decreases v, 1
  {
    match v
    case List(items) => ItemsFindNothing(items, path, 0);
    case Object(fields) => FieldsFindNothing(fields, path);
    case _ =>
  }

  lemma {:induction false} ItemsFindNothing(items: seq<Value>, path: string, index: nat)
    ensures FindInItems(items, path, index) == [] <==> forall i :: 0 <= i < |items| ==> Free(items[i], ForbiddenKeys)
    decreases items, 0
  {
    if items != [] {
      FindsNothingIffFree(items[0], path + "[" + Decimal(index) + "]");
      ItemsFindNothing(items[1..], path, index + 1);
      assert items == [items[0]] + items[1..];
    }
  }

  lemma {:induction false} FieldsFindNothing(fields: seq<Field>, path: string)
    ensures FindInFields(fields, path) == []
            <==> forall i :: 0 <= i < |fields| ==> !Forbidden(fields[i].key) && Free(fields[i].value, ForbiddenKeys)
    decreases fields, 0
  {
    hide Forbidden, Free;
    if fields != [] {
      FindsNothingIffFree(fields[0].value, path + "." + fields[0].key);
      FieldsFindNothing(fields[1..], path);
      assert fields == [fields[0]] + fields[1..];
    }
  }

  lemma {:induction false} RedactedIsFree(v: Value)
    ensures Free(Redacted(v), DroppedKeys)
    decreases v, 1
  {
    hide Dropped;
    match v
    case List(items) =>
      forall i | 0 <= i < |items| ensures Free(RedactedItems(items)[i], DroppedKeys) { RedactedIsFree(items[i]); }
    case Object(fields) => RedactedFieldsAreFree(fields);
    case _ =>
  }

  lemma FreeCons(f: Field, rest: seq<Field>)
    requires !Dropped(f.key) && Free(f.value, DroppedKeys) && Free(Object(rest), DroppedKeys)
    ensures Free(Object([f] + rest), DroppedKeys)
  {
    hide Dropped;
    var all := [f] + rest;
    forall i | 0 <= i < |all| ensures !Bad(DroppedKeys, all[i].key) && Free(all[i].value, DroppedKeys) {
      if i > 0 { assert all[i] == rest[i - 1]; }
    }
  }

  lemma {:induction false} RedactedFieldsAreFree(fields: seq<Field>)
    ensures Free(Object(RedactedFields(fields)), DroppedKeys)
    decreases fields, 0
  {
    hide Dropped, Redacted, Free;
    if fields == [] {
      NoFieldsFree();
    } else {
      var f, rest := fields[0], RedactedFields(fields[1..]);
      RedactedIsFree(f.value);
      RedactedFieldsAreFree(fields[1..]);
      if Dropped(f.key) {
        assert RedactedFields(fields) == rest;
      } else {
        FreeCons(Field(f.key, Redacted(f.value)), rest);
      }
    }
  }

  lemma NoFieldsFree()
    ensures Free(Object([]), DroppedKeys)
  {}

  lemma {:induction false} FreeBoth(v: Value)
    ensures Free(v, DroppedKeys) <==> Free(v, ForbiddenKeys) && Free(v, PrototypeKey)
    decreases v
  {
    match v
    case List(items) => forall i | 0 <= i < |items| { FreeBoth(items[i]); }
    case Object(fields) => forall i | 0 <= i < |fields| { FreeBoth(fields[i].value); }
    case _ =>
  }

  lemma {:induction false} UnchangedIffFree(v: Value)
    ensures Redacted(v) == v <==> Free(v, DroppedKeys)
    decreases v, 1
  {
    match v
    case List(items) =>
      forall i | 0 <= i < |items| ensures Redacted(items[i]) == items[i] <==> Free(items[i], DroppedKeys) {
        UnchangedIffFree(items[i]);
      }
      if Redacted(v) == v {
        forall i | 0 <= i < |items| ensures Redacted(items[i]) == items[i] {
          assert RedactedItems(items)[i] == items[i];
        }
      } else {
        assert RedactedItems(items) != items;
      }
    case Object(fields) => FieldsUnchanged(fields);
    case _ =>
  }

  lemma {:induction false} FieldsUnchanged(fields: seq<Field>)
    ensures RedactedFields(fields) == fields
            <==> forall i :: 0 <= i < |fields| ==> !Dropped(fields[i].key) && Free(fields[i].value, DroppedKeys)
    ensures |RedactedFields(fields)| <= |fields|
    decreases fields, 0
  {
    hide Dropped, Redacted, Free, HasKey;
    if fields != [] {
      var f, rest := fields[0], fields[1..];
      UnchangedIffFree(f.value);
      FieldsUnchanged(rest);
      assert fields == [f] + rest;
      if !Dropped(f.key) {
        assert RedactedFields(fields)[1..] == RedactedFields(rest);
        assert RedactedFields(fields)[0] == Field(f.key, Redacted(f.value));
      }
    }
  }

  /** After redaction the detector finds nothing, and redacting again changes nothing. */
  lemma RedactedIsClean(v: Value, path: string)
    ensures FindForbidden(Redacted(v), path) == []
    ensures Redacted(Redacted(v)) == Redacted(v)
  {
    RedactedIsFree(v);
    UnchangedIffFree(Redacted(v));
    FreeBoth(Redacted(v));
    FindsNothingIffFree(Redacted(v), path);
  }

  /** Redaction leaves a value alone exactly when the detector finds nothing in it and
      no object in it owns the prototype key. */
  lemma UnchangedIffNothingFound(v: Value, path: string)
    ensures Redacted(v) == v <==> FindForbidden(v, path) == [] && Free(v, PrototypeKey)
  {
    UnchangedIffFree(v);
    FreeBoth(v);
    FindsNothingIffFree(v, path);
  }

  /** The second condition is needed: here the detector is silent, yet a field is lost. */
  lemma PrototypeKeyIsLost()
    ensures var v := Object([Field(PROTO, Null)]);
            WellFormed(v) && FindForbidden(v, "$") == [] && Redacted(v) == Object([])
  {
    var v := Object([Field(PROTO, Null)]);
    ProtoIsAllowed();
    FieldsFindNothing(v.fields, "$");
    assert RedactedFields(v.fields) == RedactedFields(v.fields[1..]) == [];
  }

  lemma ProtoIsAllowed()
    ensures !Forbidden(PROTO)
  {
    hide FORBIDDEN_NAMES, Forbidden;
    NormalizeConcat("_", "_");
    assert NormalizeKey("_") == NormalizeChar('_') + NormalizeKey("");
    NoNameBegins('p', 'r', 'o');
    AllowedByPrefix("__", "proto__");
    assert PROTO == "__" + "proto__";
  }

  lemma NoNameBegins(a: char, b: char, c: char)
    requires (a, b, c) in {('p', 'r', 'o'), ('s', 'c', 'h'), ('t', 'a', 'r'), ('s', 'o', 'u'), ('p', 'o', 'l'),
                           ('t', 'a', 's'), ('f', 'i', 'n'), ('r', 'a', 'w')}
    ensures forall i :: 0 <= i < |FORBIDDEN_NAMES| ==> !Begins(FORBIDDEN_NAMES[i], a, b, c)
  {}

  // ---- The blinded projection ----

  datatype Entry = Entry(targetId: string, family: string, source: string, caseUid: Option<string>,
                         faultType: Option<string>)

  datatype Input = Input(
    entry: Entry, policy: string, task: string, finalOutput: string, rawTrace: Value, blockedValues: seq<string>)

  datatype Projected = Projection(value: Value) | ForbiddenField(path: string) | LockedValue(leaked: string)

  /** SHA-256 and JSON.stringify. */
  datatype Env = Env(hash: Value -> string, stringify: Value -> string)

  const SCHEMA := "p26-002-evaluator-projection-0.1.0"

  function BaseFields(input: Input, trace: Value): seq<Field> {
    [Field("schemaVersion", Text(SCHEMA)), Field("targetId", Text(input.entry.targetId)),
     Field("source", Text(input.entry.source)), Field("policy", Text(input.policy)), Field("task", Text(input.task)),
     Field("finalOutput", Text(input.finalOutput)), Field("rawTrace", trace)]
  }

  predicate OccursAt(s: string, sub: string, i: int) { 0 <= i <= |s| - |sub| && s[i..i + |sub|] == sub }

  predicate Contains(s: string, sub: string) { exists i :: 0 <= i <= |s| - |sub| && OccursAt(s, sub, i) }

  function Locked(e: Entry): seq<string> {
    (if e.caseUid.Some? then [e.caseUid.value] else []) + [e.family]
      + (if e.faultType.Some? && '_' in e.faultType.value then [e.faultType.value] else [])
  }

  /** Which of an entry's own values are locked. */
  lemma LockedIff(e: Entry, value: string)
    ensures value in Locked(e) <==>
              || value == e.family
              || e.caseUid == Some(value)
              || (e.faultType == Some(value) && exists i :: 0 <= i < |value| && value[i] == '_')
  {}

  function FirstLeak(serialized: string, values: seq<string>): (leak: Option<string>)
    ensures leak.None? <==> forall i :: 0 <= i < |values| ==> values[i] == "" || !Contains(serialized, values[i])
    ensures leak.Some? ==> leak.value in values && leak.value != "" && Contains(serialized, leak.value)
  {
    if values == [] then None
    else if values[0] != "" && Contains(serialized, values[0]) then Some(values[0])
    else FirstLeak(serialized, values[1..])
  }

  function Blinded(env: Env, input: Input): Value {
    var fields := BaseFields(input, Redacted(input.rawTrace));
    Object(fields + [Field("projectionHash", Text(env.hash(Object(fields))))])
  }

  method CreateBlindedProjection(env: Env, input: Input) returns (result: Projected)
    requires WellFormed(input.rawTrace)
    ensures !result.ForbiddenField?
    ensures result.Projection? <==>
              forall v :: v in Locked(input.entry) + input.blockedValues ==>
                            v == "" || !Contains(env.stringify(Blinded(env, input)), v)
    ensures result.Projection? ==> result.value == Blinded(env, input)
    ensures result.Projection? ==>
              && result.value.Object?
              && var fields := result.value.fields;
              && |fields| == 8
              && fields[0] == Field("schemaVersion", Text("p26-002-evaluator-projection-0.1.0"))
              && fields[1] == Field("targetId", Text(input.entry.targetId))
              && fields[2] == Field("source", Text(input.entry.source))
              && fields[3] == Field("policy", Text(input.policy))
              && fields[4] == Field("task", Text(input.task))
              && fields[5] == Field("finalOutput", Text(input.finalOutput))
              && fields[6] == Field("rawTrace", Redacted(input.rawTrace))
              && fields[7] == Field("projectionHash", Text(env.hash(Object(fields[..7]))))
    ensures result.LockedValue? ==>
              && result.leaked in Locked(input.entry) + input.blockedValues
              && Contains(env.stringify(Blinded(env, input)), result.leaked)
  {
    var redactedTrace := RedactGroundTruth(input.rawTrace);
    var base := BaseFields(input, redactedTrace);
    var projection := Object(base + [Field("projectionHash", Text(env.hash(Object(base))))]);
    var forbidden := FindForbidden(projection, "$");
    if |forbidden| > 0 {
      result := ForbiddenField(forbidden[0]);
    } else {
      var leak := FirstLeak(env.stringify(projection), Locked(input.entry) + input.blockedValues);
      result := if leak.Some? then LockedValue(leak.value) else Projection(projection);
    }
    ProjectionIsClean(env, input);
  }

  /** The projection's own keys. */
  const OWN_KEYS: seq<string> :=
    ["schemaVersion", "targetId", "source", "policy", "task", "finalOutput", "rawTrace", "projectionHash"]

  lemma OwnKeysAreAllowed()
    ensures forall i :: 0 <= i < |OWN_KEYS| ==> !Forbidden(OWN_KEYS[i])
  {
    hide Forbidden, NormalizeKey, FORBIDDEN_NAMES, Begins;
    forall i | 0 <= i < |OWN_KEYS| ensures !Forbidden(OWN_KEYS[i]) {
      var key := OWN_KEYS[i];
      assert |key| >= 3 && forall j :: 0 <= j < 3 ==> 'a' <= key[j] <= 'z';
      NoNameBegins(key[0], key[1], key[2]);
      NothingBefore();
      AllowedByPrefix("", key);
      assert "" + key == key;
    }
  }

  lemma NothingBefore()
    ensures NormalizeKey("") == ""
  {}

  /** The forbidden-field error cannot occur. */
  lemma ProjectionIsClean(env: Env, input: Input)
    ensures FindForbidden(Blinded(env, input), "$") == []
  {
    hide Forbidden, Redacted, Dropped;
    var fields := Blinded(env, input).fields;
    OwnKeysAreAllowed();
    RedactedIsClean(input.rawTrace, "$");
    FindsNothingIffFree(Redacted(input.rawTrace), "$");
    forall i | 0 <= i < |fields| ensures !Forbidden(fields[i].key) && Free(fields[i].value, ForbiddenKeys) {
      assert fields[i].key == OWN_KEYS[i];
      if i == 6 { assert fields[i] == Field("rawTrace", Redacted(input.rawTrace)); }
    }
    FieldsFindNothing(fields, "$");
  }
}
