/** The stored order of versions: sort, then number the runs of equal version texts. */
module Versions {
  import TextOrder

  type Compare = (string, string) -> int

  datatype Obj = Obj(id: int, version: string)

  /** What is asked of a comparison: a text equals itself, and swapping the arguments swaps the sign. */
  ghost predicate Comparison(compare: Compare) {
    && (forall a :: compare(a, a) == 0)
    && (forall a, b :: compare(a, b) < 0 <==> compare(b, a) > 0)
  }

  /** The objects as the language's `sorted` may return them. */
  ghost predicate Sorted(compare: Compare, items: seq<Obj>) {
    forall a, b :: 0 <= a < b < |items| ==> compare(items[a].version, items[b].version) <= 0
  }

  ghost predicate DistinctIds(items: seq<Obj>) {
    forall a, b :: 0 <= a < b < |items| ==> items[a].id != items[b].id
  }

  /** The number of changes of text up to a place; the text before the first is empty. */
  function Changes(items: seq<Obj>, a: nat): nat
    requires a < |items|
  {
    if a == 0 then (if items[0].version != "" then 1 else 0)
    else Changes(items, a - 1) + if items[a].version != items[a - 1].version then 1 else 0
  }

  ghost predicate Numbered(items: seq<Obj>, order: map<int, nat>, k: nat)
    requires k <= |items|
  {
    forall a :: 0 <= a < k ==> items[a].id in order && order[items[a].id] == Changes(items, a)
  }

  method OrderModelVersions(items: seq<Obj>) returns (order: map<int, nat>)
    requires DistinctIds(items)
    ensures Numbered(items, order, |items|)
  {
    hide Changes;
    var ver, count := "", 0;
    order := map[];
    for a := 0 to |items|
      invariant a > 0 ==> ver == items[a - 1].version && count == Changes(items, a - 1)
      invariant a == 0 ==> ver == "" && count == 0
      invariant Numbered(items, order, a)
    {
      NextChange(items, a);
      if ver != items[a].version {
        count := count + 1;
      }
      order := order[items[a].id := count];
      ver := items[a].version;
    }
  }

  lemma NextChange(items: seq<Obj>, a: nat)
    requires a < |items|
    ensures a == 0 ==> Changes(items, a) == if items[0].version != "" then 1 else 0
    ensures a > 0 ==>
              Changes(items, a) == Changes(items, a - 1) + if items[a].version != items[a - 1].version then 1 else 0
  {
  }

  // ---------- what the numbers mean ----------

  lemma {:induction false} ChangesGrow(items: seq<Obj>, a: nat, b: nat)
    requires a <= b < |items|
    ensures Changes(items, a) <= Changes(items, b)
    ensures Changes(items, a) == Changes(items, b) <==> forall k :: a <= k <= b ==> items[k].version == items[a].version
    decreases b
  {
    if a < b {
      ChangesGrow(items, a, b - 1);
    }
  }

  /** A version that compares smaller gets a smaller number. */
  lemma SmallerGetsLess(compare: Compare, items: seq<Obj>, order: map<int, nat>, i: nat, j: nat)
    requires Comparison(compare) && Sorted(compare, items) && Numbered(items, order, |items|)
    requires i < |items| && j < |items| && compare(items[i].version, items[j].version) < 0
    ensures items[i].id in order && items[j].id in order && order[items[i].id] < order[items[j].id]
  {
    hide Changes;
    assert compare(items[j].version, items[i].version) > 0 && items[i].version != items[j].version;
    assert i < j;
    ChangesGrow(items, i, j);
  }

  /** Equal texts get equal numbers exactly when the sorting leaves no other text between them. */
  lemma EqualGetEqualIff(items: seq<Obj>, order: map<int, nat>, a: nat, b: nat)
    requires Numbered(items, order, |items|) && a <= b < |items|
    ensures items[a].id in order && items[b].id in order
    ensures order[items[a].id] == order[items[b].id] <==>
            forall k :: a <= k <= b ==> items[k].version == items[a].version
  {
    hide Changes;
    ChangesGrow(items, a, b);
  }

  /** Sorting keeps equal texts together where only equal texts compare as equal. */
  lemma EqualTextsTogether(compare: Compare, items: seq<Obj>, a: nat, b: nat)
    requires Comparison(compare) && Sorted(compare, items) && a <= b < |items|
    requires forall i :: 0 <= i < |items| && compare(items[a].version, items[i].version) == 0 ==>
               items[i].version == items[a].version
    ensures items[a].version == items[b].version ==> forall k :: a <= k <= b ==> items[k].version == items[a].version
  {
    if items[a].version == items[b].version {
      forall k | a < k < b ensures items[k].version == items[a].version {
        assert compare(items[a].version, items[k].version) <= 0 && compare(items[k].version, items[b].version) <= 0;
        assert compare(items[a].version, items[k].version) == 0;
      }
    }
  }

  /** So equal numbers mean equal texts where only equal texts compare as equal. */
  lemma EqualGetEqual(compare: Compare, items: seq<Obj>, order: map<int, nat>, a: nat, b: nat)
    requires Comparison(compare) && Sorted(compare, items) && Numbered(items, order, |items|)
    requires forall i, j :: 0 <= i < |items| && 0 <= j < |items| && compare(items[i].version, items[j].version) == 0 ==>
               items[i].version == items[j].version
    requires a <= b < |items|
    ensures items[a].id in order && items[b].id in order
    ensures order[items[a].id] == order[items[b].id] <==> items[a].version == items[b].version
  {
    hide Changes;
    ChangesGrow(items, a, b);
    EqualTextsTogether(compare, items, a, b);
  }

  /** The numbers are without gaps; they start at 1, or at 0 when the first version is empty. */
  lemma {:induction false} NoGaps(items: seq<Obj>, b: nat, n: nat)
    requires b < |items|
    requires (if items[0].version == "" then 0 else 1) <= n <= Changes(items, b)
    ensures exists a :: 0 <= a <= b && Changes(items, a) == n
    decreases b
  {
    if n < Changes(items, b) {
      NoGaps(items, b - 1, n);
    }
  }

  /** What the stable sort of objects in the order of their ids returns. */
  ghost predicate StablySorted(compare: Compare, items: seq<Obj>) {
    && Sorted(compare, items)
    && forall a, b :: 0 <= a < b < |items| && compare(items[a].version, items[b].version) == 0 ==>
                        items[a].id < items[b].id
  }

  /** Two objects get the same number exactly when their texts are the same. */
  ghost predicate NumbersTellTexts(items: seq<Obj>) {
    forall a, b :: 0 <= a < |items| && 0 <= b < |items| ==>
                     (Changes(items, a) == Changes(items, b) <==> items[a].version == items[b].version)
  }

  ghost predicate OnlyEqualTexts(compare: Compare) {
    forall a, b :: compare(a, b) == 0 ==> a == b
  }

  /** The numbers tell texts apart in every sorted list if and only if the comparison does. */
  lemma AlwaysTellIff(compare: Compare)
    requires Comparison(compare)
    ensures (forall items :: StablySorted(compare, items) ==> NumbersTellTexts(items)) <==> OnlyEqualTexts(compare)
  {
    hide Changes;
    if OnlyEqualTexts(compare) {
      forall items | StablySorted(compare, items) ensures NumbersTellTexts(items) {
        TellsTexts(compare, items);
      }
    } else {
      var u, v :| compare(u, v) == 0 && u != v;
      Splits(compare, u, v);
    }
  }

  lemma TellsTexts(compare: Compare, items: seq<Obj>)
    requires Comparison(compare) && Sorted(compare, items) && OnlyEqualTexts(compare)
    ensures NumbersTellTexts(items)
  {
    hide Changes;
    forall a, b | 0 <= a <= b < |items|
      ensures Changes(items, a) == Changes(items, b) <==> items[a].version == items[b].version
    {
      EqualTextsTogether(compare, items, a, b);
      ChangesGrow(items, a, b);
    }
  }

  /** A text between its equal and another that compares as equal. */
  function Between(u: string, v: string): seq<Obj> {
    [Obj(1, u), Obj(2, v), Obj(3, u)]
  }

  lemma Splits(compare: Compare, u: string, v: string)
    requires Comparison(compare) && compare(u, v) == 0 && u != v
    ensures StablySorted(compare, Between(u, v)) && !NumbersTellTexts(Between(u, v))
  {
    assert !(compare(v, u) < 0) && !(compare(v, u) > 0);
    ChangesGrow(Between(u, v), 0, 2);
    assert Between(u, v)[1].version != Between(u, v)[0].version;
    hide Changes;
  }

  /** A comparison that takes separators for one another and orders all else by character. */
  function Plain(text: string): (plain: string)
    ensures |plain| == |text|
  {
    seq(|text|, i requires 0 <= i < |text| => if text[i] == '_' then '.' else text[i])
  }

  function ComparePlain(a: string, b: string): int {
    TextOrder.Compare(Plain(a), Plain(b))
  }

  lemma ComparePlainIsComparison()
    ensures Comparison(ComparePlain)
  {
    forall a ensures ComparePlain(a, a) == 0 {
      TextOrder.EqualIff(Plain(a), Plain(a));
    }
    forall a, b ensures ComparePlain(a, b) == -ComparePlain(b, a) {
      TextOrder.Swap(Plain(a), Plain(b));
    }
  }

  lemma Samples()
    ensures Plain("1.0") == Plain("1_0") == "1.0" && Plain("1.1") == "1.1" && "1.0" != "1_0"
    ensures TextOrder.Compare("1.0", "1.1") < 0
  {
    assert "1.0"[1] != "1_0"[1];
    assert "1.0"[1..][1..] == "0" && "1.1"[1..][1..] == "1";
    assert TextOrder.Compare("0", "1") < 0;
  }

  /** A failing case: "1_0" between two "1.0". */
  lemma EqualMayDiffer()
    ensures Comparison(ComparePlain) && ComparePlain("1.0", "1.1") < 0 && ComparePlain("1.0", "1_0") == 0
    ensures StablySorted(ComparePlain, Between("1.0", "1_0")) && !NumbersTellTexts(Between("1.0", "1_0"))
  {
    hide Changes, TextOrder.Compare, Plain, Comparison, StablySorted, NumbersTellTexts;
    ComparePlainIsComparison();
    Samples();
    TextOrder.EqualIff("1.0", "1.0");
    Splits(ComparePlain, "1.0", "1_0");
  }
}
