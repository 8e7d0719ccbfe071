// Texts in sorted order, character by character.
module Texts {
  import opened Sorting

  predicate TextLe(a: string, b: string) {
    a == [] || (b != [] && (a[0] < b[0] || (a[0] == b[0] && TextLe(a[1..], b[1..]))))
  }

  function ByText(): (string, string) -> bool { (a: string, b: string) => TextLe(a, b) }

  lemma {:induction false} TextTotal(a: string, b: string)
    ensures TextLe(a, b) || TextLe(b, a)
  {
    if a != [] && b != [] { TextTotal(a[1..], b[1..]); }
  }

  lemma {:induction false} TextTransitive(a: string, b: string, c: string)
    requires TextLe(a, b) && TextLe(b, c)
    ensures TextLe(a, c)
  {
    if a != [] && a[0] == b[0] && b[0] == c[0] { TextTransitive(a[1..], b[1..], c[1..]); }
  }

  lemma TextOrders()
    ensures TotalPreorder(ByText())
  {
    hide TextLe;
    forall a: string, b: string ensures ByText()(a, b) || ByText()(b, a) { TextTotal(a, b); }
    forall a: string, b: string, c: string | ByText()(a, b) && ByText()(b, c) ensures ByText()(a, c) {
      TextTransitive(a, b, c);
    }
  }

  lemma {:induction false} FirstDifference(a: string, b: string, n: nat)
    requires n < |a| && n < |b| && a[..n] == b[..n] && a[n] < b[n]
    ensures TextLe(a, b)
  {
    if n > 0 {
      assert a[0] == a[..n][0] == b[..n][0] == b[0];
      assert a[1..][..n - 1] == a[..n][1..] && b[1..][..n - 1] == b[..n][1..];
      FirstDifference(a[1..], b[1..], n - 1);
    }
  }
}
