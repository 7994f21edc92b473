/** Taking one element out of a list. */
module Lists {

  function Without<E>(l: seq<E>, k: nat): seq<E>
    requires k < |l|
  {
    l[..k] + l[k + 1..]
  }

  lemma WithoutContents<E>(l: seq<E>, k: nat)
    requires k < |l|
    ensures multiset(Without(l, k)) + multiset{l[k]} == multiset(l)
  {
    assert l == l[..k] + [l[k]] + l[k + 1..];
  }
}
