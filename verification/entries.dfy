/** Reading the entries of a list of lines, whatever a line may hold. */
module Entries {
  import opened Text

  /** What the reader makes of one line. */
  datatype Entry<+T> = NoEntry | Unreadable | Entry(value: T)

  /** The entries of the lines, in order; one unreadable entry makes the whole list unreadable. */
  function Collect<T>(lines: seq<string>, read: string -> Entry<T>): Option<seq<T>> {
    if lines == [] then Some([])
    else
      match read(lines[0])
      case NoEntry => Collect(lines[1..], read)
      case Unreadable => None
      case Entry(x) =>
        var rest :- Collect(lines[1..], read);
        Some([x] + rest)
  }

  /** The reading loop; it stops at the first unreadable entry. */
  method CollectLines<T>(lines: seq<string>, read: string -> Entry<T>) returns (found: Option<seq<T>>)
    ensures found == Collect(lines, read)
  {
    var xs: seq<T> := [];
    assert lines[0..] == lines;
    if Collect(lines, read).Some? {
      assert [] + Collect(lines, read).value == Collect(lines, read).value;
    }
    for i := 0 to |lines|
      invariant Collect(lines, read) == Both(Some(xs), Collect(lines[i..], read))
    {
      ghost var rest := Collect(lines[i + 1..], read);
      assert lines[i..][1..] == lines[i + 1..];
      match read(lines[i]) {
        case NoEntry =>
        case Unreadable =>
          return None;
        case Entry(x) =>
          if rest.Some? {
            Concat3(xs, [x], rest.value);
          }
          xs := xs + [x];
      }
    }
    assert xs + [] == xs;
    return Some(xs);
  }

  predicate Silent<T>(lines: seq<string>, read: string -> Entry<T>) {
    forall i :: 0 <= i < |lines| ==> read(lines[i]).NoEntry?
  }

  function Both<T>(a: Option<seq<T>>, b: Option<seq<T>>): Option<seq<T>> {
    if a.Some? && b.Some? then Some(a.value + b.value) else None
  }

  lemma {:induction false} CollectConcat<T>(a: seq<string>, b: seq<string>, read: string -> Entry<T>)
    ensures Collect(a + b, read) == Both(Collect(a, read), Collect(b, read))
  {
    if a == [] {
      assert a + b == b;
      if Collect(b, read).Some? {
        assert [] + Collect(b, read).value == Collect(b, read).value;
      }
    } else {
      CollectConcat(a[1..], b, read);
      assert (a + b)[1..] == a[1..] + b;
      if Collect(a, read).Some? && Collect(b, read).Some? && read(a[0]).Entry? {
        Concat3([read(a[0]).value], Collect(a[1..], read).value, Collect(b, read).value);
      }
    }
  }

  lemma CollectOne<T>(line: string, x: T, read: string -> Entry<T>)
    requires read(line) == Entry(x)
    ensures Collect([line], read) == Some([x])
  {
    assert [line][1..] == [];
    assert [x] + [] == [x];
  }

  /** Exactly the silent lists hold no entry. */
  lemma {:induction false} SilentIffNothing<T>(lines: seq<string>, read: string -> Entry<T>)
    ensures Silent(lines, read) <==> Collect(lines, read) == Some([])
  {
    if lines != [] {
      SilentIffNothing(lines[1..], read);
      assert forall i :: 0 < i < |lines| ==> lines[i] == lines[1..][i - 1];
    }
  }

  /** Surrounding lines leave the entries of the middle alone exactly if they hold none themselves. */
  lemma SurroundedIff<T>(a: seq<string>, middle: seq<string>, b: seq<string>, read: string -> Entry<T>, xs: seq<T>)
    requires Collect(middle, read) == Some(xs)
    ensures Collect(a + middle + b, read) == Some(xs) <==> Silent(a, read) && Silent(b, read)
  {
    CollectConcat(a + middle, b, read);
    CollectConcat(a, middle, read);
    SilentIffNothing(a, read);
    SilentIffNothing(b, read);
    var ra, rb := Collect(a, read), Collect(b, read);
    if ra.Some? && rb.Some? {
      assert |(ra.value + xs) + rb.value| == |ra.value| + |xs| + |rb.value|;
      if ra.value == [] && rb.value == [] {
        assert ra.value + xs + rb.value == xs;
      }
    }
  }

  lemma SilentConcat<T>(a: seq<string>, b: seq<string>, read: string -> Entry<T>)
    ensures Silent(a + b, read) <==> Silent(a, read) && Silent(b, read)
  {
    assert forall i :: 0 <= i < |a| ==> (a + b)[i] == a[i];
    assert forall i :: 0 <= i < |b| ==> (a + b)[|a| + i] == b[i];
  }
}
