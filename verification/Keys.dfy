/** Which keys carry ground truth: the vocabulary of packages/research/src/target-adapter.ts. */
module Keys {

  /** The letters and digits that survive lower-casing and stripping one character. Only
      two characters outside ASCII lower-case to an ASCII letter: the Kelvin sign, and the
      dotted capital I, whose combining dot is then stripped. */
  function NormalizeChar(c: char): string {
    if 'a' <= c <= 'z' || '0' <= c <= '9' then [c]
    else if 'A' <= c <= 'Z' then [(c as int + 32) as char]
    else if c == '\U{212A}' then "k"
    else if c == '\U{0130}' then "i"
    else ""
  }

  function NormalizeKey(key: string): string {
    if key == "" then "" else NormalizeChar(key[0]) + NormalizeKey(key[1..])
  }

  const FORBIDDEN_NAMES: seq<string> := [
    "answer", "answers", "attack_type", "case_uid", "correct", "detection_signal", "evaluation_criteria", "expected",
    "expected_answer", "expected_observation", "family", "fault_id", "fault_type", "ground_truth", "groundtruth",
    "label", "labels", "location", "injection_task_id", "injections", "possible_answer", "reward_basis", "security",
    "security_result", "utility", "utility_result", "verdict"]

  predicate Forbidden(key: string) { exists i :: 0 <= i < |FORBIDDEN_NAMES| && Names(FORBIDDEN_NAMES[i], key) }

  predicate Names(name: string, key: string) { NormalizeKey(key) == NormalizeKey(name) }

  // ---- Spelling ----

  /** Neither a letter nor a digit, in any spelling. */
  predicate Separator(c: char) {
    && !('a' <= c <= 'z') && !('A' <= c <= 'Z') && !('0' <= c <= '9')
    && c != '\U{212A}' && c != '\U{0130}'
  }

  /** c is a way to write this small letter or digit. */
  predicate Writes(c: char, plain: char) {
    || c == plain
    || ('A' <= c <= 'Z' && c as int - 'A' as int == plain as int - 'a' as int)
    || (c == '\U{212A}' && plain == 'k')
    || (c == '\U{0130}' && plain == 'i')
  }

  predicate SameLetter(c: char, d: char) {
    exists plain: char :: ('a' <= plain <= 'z' || '0' <= plain <= '9') && Writes(c, plain) && Writes(d, plain)
  }

  /** The two keys are the same letters and digits, up to case and separators. */
  predicate Spells(key: string, name: string) {
    if key != "" && Separator(key[0]) then Spells(key[1..], name)
    else if name != "" && Separator(name[0]) then Spells(key, name[1..])
    else if key == "" || name == "" then key == name
    else SameLetter(key[0], name[0]) && Spells(key[1..], name[1..])
  }

  lemma SameLetterIff(c: char, d: char)
    requires !Separator(c) && !Separator(d)
    ensures |NormalizeChar(c)| == |NormalizeChar(d)| == 1
    ensures SameLetter(c, d) <==> NormalizeChar(c) == NormalizeChar(d)
  {
    var plain := NormalizeChar(c)[0];
    assert Writes(c, plain);
    assert Writes(d, NormalizeChar(d)[0]);
  }

  lemma {:induction false} SpellsIff(key: string, name: string)
    ensures Spells(key, name) <==> NormalizeKey(key) == NormalizeKey(name)
    decreases |key| + |name|
  {
    hide SameLetter;
    if key != "" && Separator(key[0]) {
      SpellsIff(key[1..], name);
    } else if name != "" && Separator(name[0]) {
      SpellsIff(key, name[1..]);
    } else if key != "" && name != "" {
      SpellsIff(key[1..], name[1..]);
      SameLetterIff(key[0], name[0]);
      FirstsDiffer(NormalizeChar(key[0])[0], NormalizeChar(name[0])[0], NormalizeKey(key[1..]),
                   NormalizeKey(name[1..]));
    }
  }

  lemma FirstsDiffer(a: char, b: char, s: string, t: string)
    ensures [a] + s == [b] + t <==> a == b && s == t
  {
    assert ([a] + s)[0] == a && ([b] + t)[0] == b && ([a] + s)[1..] == s && ([b] + t)[1..] == t;
  }

  /** A key is forbidden exactly when it spells one of the names below, whatever the case
      of its letters and whatever else stands between them. */
  lemma ForbiddenIff(key: string)
    ensures Forbidden(key) <==>
              exists i :: 0 <= i < 27 && Spells(key, [
                "answer", "answers", "attack_type", "case_uid", "correct", "detection_signal", "evaluation_criteria",
                "expected", "expected_answer", "expected_observation", "family", "fault_id", "fault_type",
                "ground_truth", "groundtruth", "label", "labels", "location", "injection_task_id", "injections",
                "possible_answer", "reward_basis", "security", "security_result", "utility", "utility_result",
                "verdict"][i])
  {
    hide NormalizeKey, Spells;
    forall i | 0 <= i < |FORBIDDEN_NAMES|
      ensures Names(FORBIDDEN_NAMES[i], key) <==> Spells(key, FORBIDDEN_NAMES[i])
    {
      SpellsIff(key, FORBIDDEN_NAMES[i]);
    }
  }

  lemma {:induction false} NormalizeConcat(a: string, b: string)
    ensures NormalizeKey(a + b) == NormalizeKey(a) + NormalizeKey(b)
  {
    hide NormalizeChar;
    if a == "" {
      assert a + b == b;
    } else {
      NormalizeConcat(a[1..], b);
      assert (a + b)[1..] == a[1..] + b;
      ConcatAssociates(NormalizeChar(a[0]), NormalizeKey(a[1..]), NormalizeKey(b));
    }
  }

  lemma ConcatAssociates(a: string, b: string, c: string)
    ensures a + b + c == a + (b + c)
  {}

  /** Inserting or deleting a separator, and changing the case of a letter, anywhere in a
      key never change whether it is forbidden. */
  lemma SpellingIrrelevant(before: string, c: char, after: string)
    ensures !('a' <= c <= 'z' || 'A' <= c <= 'Z' || '0' <= c <= '9' || c == '\U{212A}' || c == '\U{0130}') ==>
              (Forbidden(before + [c] + after) <==> Forbidden(before + after))
    ensures 'A' <= c <= 'Z' ==>
              (Forbidden(before + [c] + after) <==>
               Forbidden(before + [(c as int - 'A' as int + 'a' as int) as char] + after))
  {
    hide Forbidden;
    Around(before, c, after);
    if 'A' <= c <= 'Z' {
      var small := (c as int + 32) as char;
      Around(before, small, after);
      SameKey(before + [c] + after, before + [small] + after);
    } else if NormalizeChar(c) == "" {
      NormalizeConcat(before, after);
      SameKey(before + [c] + after, before + after);
    }
  }

  lemma SameKey(a: string, b: string)
    requires NormalizeKey(a) == NormalizeKey(b)
    ensures Forbidden(a) <==> Forbidden(b)
  {
    assert forall i :: 0 <= i < |FORBIDDEN_NAMES| ==> (Names(FORBIDDEN_NAMES[i], a) <==> Names(FORBIDDEN_NAMES[i], b));
  }

  lemma Around(before: string, c: char, after: string)
    ensures NormalizeKey(before + [c] + after) == NormalizeKey(before) + NormalizeChar(c) + NormalizeKey(after)
  {
    NormalizeConcat(before + [c], after);
    NormalizeConcat(before, [c]);
    assert [c][1..] == "";
  }

  // ---- Keys that are not forbidden ----

  predicate Begins(name: string, a: char, b: char, c: char) {
    |name| >= 3 && name[0] == a && name[1] == b && name[2] == c
  }

  lemma StartsWithLetters(i: nat)
    requires i < |FORBIDDEN_NAMES|
    ensures |FORBIDDEN_NAMES[i]| >= 3
    ensures forall j :: 0 <= j < 3 ==> 'a' <= FORBIDDEN_NAMES[i][j] <= 'z'
  {}

  lemma {:induction false} LettersFirst(name: string, n: nat)
    requires n <= |name| && forall j :: 0 <= j < n ==> 'a' <= name[j] <= 'z'
    ensures |NormalizeKey(name)| >= n && NormalizeKey(name)[..n] == name[..n]
  {
    if n > 0 {
      LettersFirst(name[1..], n - 1);
      assert name[..n] == [name[0]] + name[1..][..n - 1];
    }
  }

  /** A forbidden key begins with the first three letters of a forbidden name. */
  lemma ForbiddenPrefix(key: string)
    requires Forbidden(key)
    ensures var n := NormalizeKey(key);
            |n| >= 3 && exists i :: 0 <= i < |FORBIDDEN_NAMES| && Begins(FORBIDDEN_NAMES[i], n[0], n[1], n[2])
  {
    hide NormalizeKey, FORBIDDEN_NAMES;
    var i :| 0 <= i < |FORBIDDEN_NAMES| && Names(FORBIDDEN_NAMES[i], key);
    StartsWithLetters(i);
    var name := FORBIDDEN_NAMES[i];
    LettersFirst(name, 3);
    assert name[..3][0] == name[0] && name[..3][1] == name[1] && name[..3][2] == name[2];
    assert Begins(name, name[0], name[1], name[2]);
  }

  /** A key whose first three characters are small letters is allowed if no forbidden name
      begins with them. */
  lemma AllowedByPrefix(before: string, key: string)
    requires NormalizeKey(before) == "" && |key| >= 3 && forall j :: 0 <= j < 3 ==> 'a' <= key[j] <= 'z'
    requires forall i :: 0 <= i < |FORBIDDEN_NAMES| ==> !Begins(FORBIDDEN_NAMES[i], key[0], key[1], key[2])
    ensures !Forbidden(before + key)
  {
    hide NormalizeKey, FORBIDDEN_NAMES, Forbidden, Begins;
    NormalizeConcat(before, key);
    LettersFirst(key, 3);
    var n := NormalizeKey(before + key);
    assert n == NormalizeKey(key);
    assert n[..3][0] == key[0] && n[..3][1] == key[1] && n[..3][2] == key[2];
    if Forbidden(before + key) { ForbiddenPrefix(before + key); }
  }
}
