/** The layered evidence root of packages/evidence/src/index.ts. */
module EvidenceRoot {
  import opened Records
  import opened Hashing
  import opened Numerals

  const TAG := "AgentTrialEvidence\0"

  function EmptyText(): string { TAG + "empty" }
  function LeafText(itemHash: string): string { TAG + "leaf\0" + itemHash }
  function NodeText(left: string, right: string): string { TAG + "node\0" + left + "\0" + right }
  function RootText(count: nat, top: string): string { TAG + "root\0" + Decimal(count) + "\0" + top }

  function Leaf(h: Hasher, item: EvidenceItem): string { h.text(LeafText(h.json(VItem(item)))) }

  function Leaves(h: Hasher, items: seq<EvidenceItem>): (layer: seq<string>)
    ensures |layer| == |items|
    ensures forall i :: 0 <= i < |items| ==> layer[i] == Leaf(h, items[i])
  {
    if items == [] then [] else [Leaf(h, items[0])] + Leaves(h, items[1..])
  }

  /** The right child of pair k; empty when the layer has odd length. */
  function Right(layer: seq<string>, k: nat): string {
    if 2 * k + 1 < |layer| then layer[2 * k + 1] else ""
  }

  function Halved(n: nat): nat { (n + 1) / 2 }

  function PairText(layer: seq<string>, k: nat): string
    requires k < Halved(|layer|)
  {
    NodeText(layer[2 * k], Right(layer, k))
  }

  function Above(h: Hasher, layer: seq<string>): (up: seq<string>)
    ensures |up| == Halved(|layer|)
    ensures forall k :: 0 <= k < |up| ==> up[k] == h.text(PairText(layer, k))
  {
    FirstPairs(h, layer, Halved(|layer|))
  }

  /** The first n nodes of the layer above. */
  function FirstPairs(h: Hasher, layer: seq<string>, n: nat): (up: seq<string>)
    requires n <= Halved(|layer|)
    ensures |up| == n
    ensures forall k :: 0 <= k < n ==> up[k] == h.text(PairText(layer, k))
  {
    if n == 0 then [] else FirstPairs(h, layer, n - 1) + [h.text(PairText(layer, n - 1))]
  }

  function Top(h: Hasher, layer: seq<string>): string
    requires layer != []
    decreases |layer|
  {
    if |layer| == 1 then layer[0] else Top(h, Above(h, layer))
  }

  function Root(h: Hasher, items: seq<EvidenceItem>): string {
    if items == [] then h.text(EmptyText())
    else h.text(RootText(|items|, Top(h, Leaves(h, items))))
  }

  lemma TopStep(h: Hasher, layer: seq<string>)
    requires layer != []
    ensures Top(h, layer) == if |layer| == 1 then layer[0] else Top(h, Above(h, layer))
  {}

  /** The inner loop: pair up neighbours, the last one with the empty string if alone. */
  method NextLayer(h: Hasher, layer: seq<string>) returns (next: seq<string>)
    ensures next == Above(h, layer)
  {
    hide NodeText;
    next := [];
    var i := 0;
    while i < |layer|
      invariant i == 2 * |next| && |next| <= Halved(|layer|)
      invariant next == FirstPairs(h, layer, |next|)
    {
      var right := if i + 1 < |layer| then layer[i + 1] else "";
      assert i == 2 * |next| && right == Right(layer, |next|);
      next := next + [h.text(NodeText(layer[i], right))];
      i := i + 2;
    }
  }

  method ComputeRoot(h: Hasher, items: seq<EvidenceItem>) returns (root: string)
    ensures root == Root(h, items)
  {
    hide NodeText, RootText, EmptyText, LeafText, Top, Above;
    if |items| == 0 { return h.text(EmptyText()); }
    var layer := Leaves(h, items);
    while |layer| > 1
      invariant layer != [] && Top(h, layer) == Top(h, Leaves(h, items))
      decreases |layer|
    {
      TopStep(h, layer);
      layer := NextLayer(h, layer);
    }
    TopStep(h, layer);
    root := h.text(RootText(|items|, layer[0]));
  }

  // ---- The strings and objects that one root hashes ----

  ghost function PairTexts(layer: seq<string>): set<string> {
    set k | 0 <= k < Halved(|layer|) :: PairText(layer, k)
  }

  ghost function LayerTexts(h: Hasher, layer: seq<string>): set<string>
    requires layer != []
    decreases |layer|
  {
    if |layer| == 1 then {}
    else PairTexts(layer) + LayerTexts(h, Above(h, layer))
  }

  ghost function RootTexts(h: Hasher, items: seq<EvidenceItem>): set<string> {
    if items == [] then {EmptyText()}
    else (set i | 0 <= i < |items| :: LeafText(h.json(VItem(items[i]))))
         + LayerTexts(h, Leaves(h, items)) + {RootText(|items|, Top(h, Leaves(h, items)))}
  }

  ghost function ItemValues(items: seq<EvidenceItem>): set<Value> { set item | item in items :: VItem(item) }

  // ---- The strings can be parsed back ----

  lemma NodeTextInjective(l: string, r: string, l': string, r': string)
    requires |l| == |l'| && NodeText(l, r) == NodeText(l', r')
    ensures l == l' && r == r'
  {
    var t, p := NodeText(l, r), |TAG + "node\0"|;
    assert t[p..][..|l|] == l && t[p..][..|l|] == l';
    assert t[p + |l| + 1..] == r && t[p + |l| + 1..] == r';
  }

  lemma RootTextInjective(m: nat, top: string, n: nat, top': string)
    requires |top| == |top'| && RootText(m, top) == RootText(n, top')
    ensures m == n && top == top'
  {
    var t, p := RootText(m, top), |TAG + "root\0"|;
    assert |Decimal(m)| == |Decimal(n)|;
    assert t[p..][..|Decimal(m)|] == Decimal(m) && t[p..][..|Decimal(m)|] == Decimal(n);
    DecimalInjective(m, n);
    assert t[|t| - |top|..] == top && t[|t| - |top|..] == top';
  }

  lemma LeafTextInjective(x: string, y: string)
    requires LeafText(x) == LeafText(y)
    ensures x == y
  {
    assert LeafText(x)[|TAG + "leaf\0"|..] == x && LeafText(y)[|TAG + "leaf\0"|..] == y;
  }

  lemma EmptyIsNoRoot(n: nat, top: string)
    ensures EmptyText() != RootText(n, top)
  {
    assert EmptyText()[|TAG|] == 'e' && RootText(n, top)[|TAG|] == 'r';
  }

  // ---- Small roots ----

  /** What is hashed for no item, one, two and three: tagged leaves, pairs, an empty right
      partner at an odd end, and the number of items around the top. */
  lemma SmallRoots(h: Hasher, x: EvidenceItem, y: EvidenceItem, z: EvidenceItem)
    ensures Root(h, []) == h.text("AgentTrialEvidence\0empty")
    ensures Root(h, [x]) == h.text("AgentTrialEvidence\0root\0" + "1" + "\0" + Tagged(h, x))
    ensures Root(h, [x, y]) ==
            h.text("AgentTrialEvidence\0root\0" + "2" + "\0"
                   + h.text("AgentTrialEvidence\0node\0" + Tagged(h, x) + "\0" + Tagged(h, y)))
    ensures Root(h, [x, y, z]) ==
            h.text("AgentTrialEvidence\0root\0" + "3" + "\0"
                   + h.text("AgentTrialEvidence\0node\0"
                            + h.text("AgentTrialEvidence\0node\0" + Tagged(h, x) + "\0" + Tagged(h, y)) + "\0"
                            + h.text("AgentTrialEvidence\0node\0" + Tagged(h, z) + "\0" + "")))
  {
    hide Root;
    RootOfOne(h, x);
    RootOfTwo(h, x, y);
    RootOfThree(h, x, y, z);
    assert Root(h, []) == h.text(EmptyText()) by { RootOfNone(h); }
    LeafSays(h, x);
  }

  lemma RootOfNone(h: Hasher)
    ensures Root(h, []) == h.text(EmptyText())
  {}

  lemma RootOfOne(h: Hasher, x: EvidenceItem)
    ensures Root(h, [x]) == h.text("AgentTrialEvidence\0root\0" + "1" + "\0" + Tagged(h, x))
  {
    hide NodeText, RootText, LeafText, Tagged;
    LeafSays(h, x);
    assert Leaves(h, [x]) == [Leaf(h, x)];
    RootSays(1, Leaf(h, x), "1");
  }

  lemma RootOfTwo(h: Hasher, x: EvidenceItem, y: EvidenceItem)
    ensures Root(h, [x, y]) ==
            h.text("AgentTrialEvidence\0root\0" + "2" + "\0"
                   + h.text("AgentTrialEvidence\0node\0" + Tagged(h, x) + "\0" + Tagged(h, y)))
  {
    hide NodeText, RootText, LeafText, Leaf, Tagged, Above;
    LeafSays(h, x);
    LeafSays(h, y);
    var layer := [Leaf(h, x), Leaf(h, y)];
    assert Leaves(h, [x, y]) == layer;
    AboveTwo(h, layer[0], layer[1]);
    TopStep(h, layer);
    NodeSays(layer[0], layer[1]);
    RootSays(2, h.text(NodeText(layer[0], layer[1])), "2");
  }

  lemma RootOfThree(h: Hasher, x: EvidenceItem, y: EvidenceItem, z: EvidenceItem)
    ensures Root(h, [x, y, z]) ==
            h.text("AgentTrialEvidence\0root\0" + "3" + "\0"
                   + h.text("AgentTrialEvidence\0node\0"
                            + h.text("AgentTrialEvidence\0node\0" + Tagged(h, x) + "\0" + Tagged(h, y)) + "\0"
                            + h.text("AgentTrialEvidence\0node\0" + Tagged(h, z) + "\0" + "")))
  {
    hide NodeText, RootText, LeafText, Leaf, Tagged, Above;
    LeafSays(h, x);
    LeafSays(h, y);
    LeafSays(h, z);
    var layer := [Leaf(h, x), Leaf(h, y), Leaf(h, z)];
    assert Leaves(h, [x, y, z]) == layer;
    var left, right := h.text(NodeText(layer[0], layer[1])), h.text(NodeText(layer[2], ""));
    AboveThree(h, layer[0], layer[1], layer[2]);
    AboveTwo(h, left, right);
    TopStep(h, layer);
    TopStep(h, [left, right]);
    NodeSays(layer[0], layer[1]);
    NodeSays(layer[2], "");
    NodeSays(left, right);
    RootSays(3, h.text(NodeText(left, right)), "3");
  }

  lemma AboveTwo(h: Hasher, a: string, b: string)
    ensures Above(h, [a, b]) == [h.text(NodeText(a, b))]
  {
    hide NodeText;
    assert PairText([a, b], 0) == NodeText(a, b);
  }

  lemma AboveThree(h: Hasher, a: string, b: string, c: string)
    ensures Above(h, [a, b, c]) == [h.text(NodeText(a, b)), h.text(NodeText(c, ""))]
  {
    hide NodeText;
    assert PairText([a, b, c], 0) == NodeText(a, b) && PairText([a, b, c], 1) == NodeText(c, "");
  }

  function Tagged(h: Hasher, item: EvidenceItem): string {
    h.text("AgentTrialEvidence\0leaf\0" + h.json(VItem(item)))
  }

  lemma LeafSays(h: Hasher, item: EvidenceItem)
    ensures Leaf(h, item) == Tagged(h, item) && EmptyText() == "AgentTrialEvidence\0empty"
  {
    assert TAG + "leaf\0" == "AgentTrialEvidence\0leaf\0";
  }

  lemma NodeSays(left: string, right: string)
    ensures NodeText(left, right) == "AgentTrialEvidence\0node\0" + left + "\0" + right
  {
    assert TAG + "node\0" == "AgentTrialEvidence\0node\0";
  }

  lemma RootSays(count: nat, top: string, digits: string)
    requires Decimal(count) == digits
    ensures RootText(count, top) == "AgentTrialEvidence\0root\0" + digits + "\0" + top
  {
    assert TAG + "root\0" == "AgentTrialEvidence\0root\0";
  }

  // ---- Injectivity ----

  predicate Uniform(layer: seq<string>) { forall k :: 0 <= k < |layer| ==> |layer[k]| == 64 }

  lemma {:induction false} TopIsDigest(h: Hasher, layer: seq<string>)
    requires layer != [] && Uniform(layer) && Digests(h)
    ensures |Top(h, layer)| == 64
    decreases |layer|
  {
    if |layer| > 1 {
      AboveIsUniform(h, layer);
      TopIsDigest(h, Above(h, layer));
    }
  }

  /** Layers of equal length with the same top are equal, layer by layer. */
  lemma {:induction false} TopBindsLayer(h: Hasher, a: seq<string>, b: seq<string>)
    requires |a| == |b| > 0 && Uniform(a) && Uniform(b) && Digests(h)
    requires CollisionFree(h, {}, LayerTexts(h, a) + LayerTexts(h, b))
    requires Top(h, a) == Top(h, b)
    ensures a == b
    decreases |a|
  {
    hide PairTexts, PairText, Uniform;
    TopStep(h, a);
    TopStep(h, b);
    if |a| > 1 {
      var up, up' := Above(h, a), Above(h, b);
      AboveIsUniform(h, a);
      AboveIsUniform(h, b);
      TopBindsLayer(h, up, up');
      PairsBindLayer(h, a, b);
    }
  }

  lemma AboveIsUniform(h: Hasher, layer: seq<string>)
    requires Digests(h)
    ensures Uniform(Above(h, layer))
  {
    var up := Above(h, layer);
    assert forall k :: 0 <= k < |up| ==> Hex64(up[k]);
  }

  lemma PairBinds(h: Hasher, a: seq<string>, b: seq<string>, k: nat)
    requires |a| == |b| && k < Halved(|a|) && Uniform(a) && Uniform(b)
    requires h.text(PairText(a, k)) == h.text(PairText(b, k))
    requires CollisionFree(h, {}, PairTexts(a) + PairTexts(b))
    ensures a[2 * k] == b[2 * k] && Right(a, k) == Right(b, k)
  {
    hide NodeText;
    assert PairText(a, k) in PairTexts(a) && PairText(b, k) in PairTexts(b);
    assert PairText(a, k) == PairText(b, k);
    NodeTextInjective(a[2 * k], Right(a, k), b[2 * k], Right(b, k));
  }

  lemma PairsBindLayer(h: Hasher, a: seq<string>, b: seq<string>)
    requires |a| == |b| && Uniform(a) && Uniform(b) && Above(h, a) == Above(h, b)
    requires CollisionFree(h, {}, PairTexts(a) + PairTexts(b))
    ensures a == b
  {
    hide PairText, PairTexts, CollisionFree, Above, Uniform;
    forall j | 0 <= j < |a| ensures a[j] == b[j] {
      var k := j / 2;
      assert h.text(PairText(a, k)) == Above(h, a)[k] == Above(h, b)[k] == h.text(PairText(b, k));
      PairBinds(h, a, b, k);
      if j == 2 * k + 1 { assert Right(a, k) == a[j] && Right(b, k) == b[j]; }
    }
  }

  /** Equal roots mean equal lists: same length, same items, same order - for every
      length, including none, and for every odd layer on the way up. */
  lemma RootBindsItems(h: Hasher, a: seq<EvidenceItem>, b: seq<EvidenceItem>)
    requires Digests(h) && Root(h, a) == Root(h, b)
    requires CollisionFree(h, ItemValues(a) + ItemValues(b), RootTexts(h, a) + RootTexts(h, b))
    ensures a == b
  {
    hide NodeText, LeafText, RootText, EmptyText, Leaf, Top, LayerTexts;
    if a == [] || b == [] {
      if b != [] { EmptyRootIsSeparate(h, a, b); }
      if a != [] { EmptyRootIsSeparate(h, b, a); }
    } else {
      var la, lb := Leaves(h, a), Leaves(h, b);
      LeavesAreUniform(h, a);
      LeavesAreUniform(h, b);
      TopIsDigest(h, la);
      TopIsDigest(h, lb);
      RootTextInjective(|a|, Top(h, la), |b|, Top(h, lb));
      TopBindsLayer(h, la, lb);
      forall i | 0 <= i < |a| ensures a[i] == b[i] { LeafBindsItem(h, a, b, i); }
    }
  }

  lemma LeavesAreUniform(h: Hasher, items: seq<EvidenceItem>)
    requires Digests(h)
    ensures Uniform(Leaves(h, items))
  {
    forall i | 0 <= i < |items| ensures |Leaves(h, items)[i]| == 64 {
      assert Hex64(h.text(LeafText(h.json(VItem(items[i])))));
    }
  }

  lemma EmptyRootIsSeparate(h: Hasher, a: seq<EvidenceItem>, b: seq<EvidenceItem>)
    requires a == [] && b != []
    requires CollisionFree(h, {}, RootTexts(h, a) + RootTexts(h, b))
    ensures Root(h, a) != Root(h, b)
  {
    EmptyIsNoRoot(|b|, Top(h, Leaves(h, b)));
  }

  lemma LeafBindsItem(h: Hasher, a: seq<EvidenceItem>, b: seq<EvidenceItem>, i: nat)
    requires i < |a| && i < |b| && Leaves(h, a)[i] == Leaves(h, b)[i]
    requires CollisionFree(h, ItemValues(a) + ItemValues(b), RootTexts(h, a) + RootTexts(h, b))
    ensures a[i] == b[i]
  {
    var x, y := h.json(VItem(a[i])), h.json(VItem(b[i]));
    assert LeafText(x) in RootTexts(h, a) && LeafText(y) in RootTexts(h, b);
    LeafTextInjective(x, y);
    assert a[i] in a && b[i] in b;
    assert VItem(a[i]) in ItemValues(a) && VItem(b[i]) in ItemValues(b);
  }
}
