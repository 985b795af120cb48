/** The order of texts, character by character. */
module TextOrder {
  /** Negative, zero or positive; a proper prefix comes first. */
  function Compare(a: string, b: string): int {
    if a == "" || b == "" then |a| - |b|
    else if a[0] == b[0] then Compare(a[1..], b[1..])
    else if a[0] < b[0] then -1
    else 1
  }

  lemma {:induction false} EqualIff(a: string, b: string)
    ensures Compare(a, b) == 0 <==> a == b
  {
    if a != "" && b != "" && a[0] == b[0] {
      EqualIff(a[1..], b[1..]);
      assert a == [a[0]] + a[1..] && b == [b[0]] + b[1..];
    }
  }

  lemma {:induction false} Swap(a: string, b: string)
    ensures Compare(a, b) == -Compare(b, a)
  {
    if a != "" && b != "" && a[0] == b[0] {
      Swap(a[1..], b[1..]);
    }
  }

  lemma {:induction false} Transitive(a: string, b: string, c: string)
    requires Compare(a, b) <= 0 && Compare(b, c) <= 0
    ensures Compare(a, c) <= 0
  {
    if a != "" && b != "" && c != "" && a[0] == b[0] == c[0] {
      Transitive(a[1..], b[1..], c[1..]);
    }
  }
}
