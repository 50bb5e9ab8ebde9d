/** Text that is read from a position on, and may have been cut off anywhere. */
module Prefixes {
  /** From pos on, raw is the beginning of w. */
  ghost predicate Begins<T>(raw: seq<T>, pos: nat, w: seq<T>) {
    forall i :: pos <= i < |raw| ==> Agrees(raw, pos, w, i)
  }

  ghost predicate Agrees<T>(raw: seq<T>, pos: nat, w: seq<T>, i: nat)
    requires pos <= i < |raw|
  {
    i - pos < |w| && raw[i] == w[i - pos]
  }

  lemma BeginsAt<T>(raw: seq<T>, pos: nat, w: seq<T>, i: nat)
    requires Begins(raw, pos, w) && pos <= i < |raw|
    ensures i - pos < |w| && raw[i] == w[i - pos]
  {
    assert Agrees(raw, pos, w, i);
  }

  lemma BeginsPast<T>(raw: seq<T>, pos: nat, a: seq<T>, w: seq<T>)
    requires Begins(raw, pos, a + w)
    ensures Begins(raw, pos + |a|, w)
  {
    var next := pos + |a|;
    forall i | next <= i < |raw| ensures Agrees(raw, next, w, i) {
      BeginsAt(raw, pos, a + w, i);
    }
  }

  lemma BeginsWith<T>(raw: seq<T>, pos: nat, a: seq<T>, w: seq<T>)
    requires Begins(raw, pos, a + w) && pos + |a| <= |raw|
    ensures raw[pos..pos + |a|] == a
  {
    forall i | 0 <= i < |a| ensures raw[pos..pos + |a|][i] == a[i] {
      BeginsAt(raw, pos, a + w, pos + i);
    }
  }

  lemma PrefixBegins<T>(raw: seq<T>, body: seq<T>)
    requires |raw| <= |body| && raw == body[..|raw|]
    ensures Begins(raw, 0, body)
  {
    forall i: nat | 0 <= i < |raw| ensures Agrees(raw, 0, body, i) {
      assert raw[i] == body[..|raw|][i];
    }
  }
}
