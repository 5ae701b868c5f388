/**
 * The three list operations of the downloader, on Dafny sequences:
 * appending lists one after another (`[...acc, ...part]` in a loop),
 * `filter(Boolean)` on strings and `join(sep)`.
 */
module Sequences {

  /** The elements of every part, part after part, built from the left as an accumulator is. */
  function Flatten<T>(parts: seq<seq<T>>): seq<T>
  {
    if parts == [] then [] else Flatten(parts[..|parts| - 1]) + parts[|parts| - 1]
  }

  /** The sum of the lengths of the parts. */
  function TotalLength<T>(parts: seq<seq<T>>): nat
  {
    if parts == [] then 0 else TotalLength(parts[..|parts| - 1]) + |parts[|parts| - 1]|
  }

  lemma {:induction false} FlattenLength<T>(parts: seq<seq<T>>)
    ensures |Flatten(parts)| == TotalLength(parts)
  {
    if parts != [] {
      FlattenLength(parts[..|parts| - 1]);
    }
  }

  /** Flattening distributes over concatenation of the list of parts. */
  lemma {:induction false} FlattenAppend<T>(a: seq<seq<T>>, b: seq<seq<T>>)
    ensures Flatten(a + b) == Flatten(a) + Flatten(b)
  {
    if b == [] {
      assert a + b == a;
    } else {
      var init := b[..|b| - 1];
      assert (a + b)[..|a + b| - 1] == a + init;
      assert (a + b)[|a + b| - 1] == b[|b| - 1];
      FlattenAppend(a, init);
    }
  }

  /** Part k sits between the parts before it and the parts after it. */
  lemma {:induction false} FlattenAround<T>(parts: seq<seq<T>>, k: nat)
    requires k < |parts|
    ensures Flatten(parts) == Flatten(parts[..k]) + parts[k] + Flatten(parts[k + 1..])
  {
    var n := |parts|;
    var init := parts[..n - 1];
    if k == n - 1 {
      assert init == parts[..k];
      assert parts[k + 1..] == [];
    } else {
      FlattenAround(init, k);
      assert init[..k] == parts[..k];
      var after := parts[k + 1..];
      assert after[..|after| - 1] == init[k + 1..];
      assert after[|after| - 1] == parts[n - 1];
    }
  }

  /**
   * Replacing part k by the empty list removes exactly its elements: the
   * parts before it and after it keep their elements and their order.
   */
  lemma EmptiedPart<T>(parts: seq<seq<T>>, k: nat)
    requires k < |parts|
    ensures Flatten(parts[k := []]) == Flatten(parts[..k]) + Flatten(parts[k + 1..])
    ensures |Flatten(parts[k := []])| == |Flatten(parts)| - |parts[k]|
  {
    var emptied := parts[k := []];
    FlattenAround(emptied, k);
    assert emptied[..k] == parts[..k];
    assert emptied[k + 1..] == parts[k + 1..];
    FlattenAround(parts, k);
  }

  /** Element j of part k is at position j after the elements of the parts before k. */
  lemma ElementPosition<T>(parts: seq<seq<T>>, k: nat, j: nat)
    requires k < |parts| && j < |parts[k]|
    ensures |Flatten(parts[..k])| + j < |Flatten(parts)|
    ensures Flatten(parts)[|Flatten(parts[..k])| + j] == parts[k][j]
  {
    FlattenAround(parts, k);
  }

  /** The flattened list is empty exactly when every part is empty. */
  lemma {:induction false} FlattenEmpty<T>(parts: seq<seq<T>>)
    ensures Flatten(parts) == [] <==> forall i :: 0 <= i < |parts| ==> parts[i] == []
  {
    if parts != [] {
      var init := parts[..|parts| - 1];
      FlattenEmpty(init);
      forall i | 0 <= i < |init| ensures init[i] == parts[i] { }
    }
  }

  /** `filter(Boolean)` on strings: the non-empty ones. */
  function NonEmpty(s: seq<string>): (r: seq<string>)
    ensures |r| <= |s|
    ensures forall x :: x in r <==> x in s && x != ""
    ensures forall i :: 0 <= i < |r| ==> r[i] != ""
    ensures r == [] <==> forall i :: 0 <= i < |s| ==> s[i] == ""
  {
    if s == [] then []
    else if s[0] == "" then NonEmpty(s[1..])
    else [s[0]] + NonEmpty(s[1..])
  }

  /** The filter keeps the order of the strings it keeps. */
  lemma {:induction false} NonEmptyAppend(a: seq<string>, b: seq<string>)
    ensures NonEmpty(a + b) == NonEmpty(a) + NonEmpty(b)
  {
    if a != [] {
      assert (a + b)[0] == a[0];
      assert (a + b)[1..] == a[1..] + b;
      NonEmptyAppend(a[1..], b);
    } else {
      assert a + b == b;
    }
  }

  /** `join(sep)`: the parts with `sep` between neighbours; no parts join to "". */
  function JoinWith(parts: seq<string>, sep: string): string
  {
    if parts == [] then ""
    else if |parts| == 1 then parts[0]
    else parts[0] + sep + JoinWith(parts[1..], sep)
  }

  /** Joining one more part adds a separator and that part at the end. */
  lemma {:induction false} JoinWithSnoc(parts: seq<string>, x: string, sep: string)
    ensures JoinWith(parts + [x], sep) == if parts == [] then x else JoinWith(parts, sep) + sep + x
  {
    if |parts| == 1 {
      assert (parts + [x])[1..] == [x];
    } else if |parts| > 1 {
      assert (parts + [x])[1..] == parts[1..] + [x];
      JoinWithSnoc(parts[1..], x, sep);
    }
  }

  /** A join of non-empty parts is empty only when there are no parts. */
  lemma JoinWithEmpty(parts: seq<string>, sep: string)
    requires forall i :: 0 <= i < |parts| ==> parts[i] != ""
    ensures JoinWith(parts, sep) == "" <==> parts == []
  {
  }

  /** The length of a join: every part, and one separator fewer than there are parts. */
  lemma {:induction false} JoinWithLength(parts: seq<string>, sep: string)
    requires parts != []
    ensures |JoinWith(parts, sep)| == TotalLength(parts) + (|parts| - 1) * |sep|
  {
    var n := |parts|;
    if n > 1 {
      var init := parts[..n - 1];
      assert init + [parts[n - 1]] == parts;
      JoinWithSnoc(init, parts[n - 1], sep);
      JoinWithLength(init, sep);
    }
  }
}
