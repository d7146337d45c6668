/** A sequence cut into groups of a fixed size, the last one possibly shorter, each group translated by f. */
module Groups {

  function Grouped<A, B>(f: seq<A> -> seq<B>, size: nat, x: seq<A>): seq<B>
    requires size > 0
  {
    if x == [] then [] else if |x| <= size then f(x) else f(x[..size]) + Grouped(f, size, x[size..])
  }

  /** n is a multiple of size. */
  ghost predicate Whole(size: nat, n: nat)
    requires size > 0
  {
    n == 0 || (n >= size && Whole(size, n - size))
  }

  lemma {:induction false} AppendGroup<A, B>(f: seq<A> -> seq<B>, size: nat, x: seq<A>, g: seq<A>)
    requires size > 0 && Whole(size, |x|) && 1 <= |g| <= size
    ensures Grouped(f, size, x + g) == Grouped(f, size, x) + f(g)
    ensures |g| == size ==> Whole(size, |x + g|)
    decreases |x|
  {
    if x == [] {
      assert x + g == g;
    } else {
      assert (x + g)[..size] == x[..size] && (x + g)[size..] == x[size..] + g;
      AppendGroup(f, size, x[size..], g);
      if |x| == size {
        assert x[..size] == x && x[size..] == [];
      }
    }
  }

  /** After reading x: the whole groups are translated in out, the i elements since then wait in the buffer. */
  ghost predicate Buffered<A, B>(f: seq<A> -> seq<B>, size: nat, x: seq<A>, buffer: seq<A>, i: nat, out: seq<B>)
    requires size > 0
  {
    && i < size && i <= |x| && |buffer| == size && Whole(size, |x| - i)
    && buffer[..i] == x[|x| - i..]
    && out == Grouped(f, size, x[..|x| - i])
  }

  lemma BufferGrows<A, B>(f: seq<A> -> seq<B>, size: nat, x: seq<A>, buffer: seq<A>, i: nat, out: seq<B>, a: A)
    requires size > 0 && Buffered(f, size, x, buffer, i, out) && i + 1 < size
    ensures Buffered(f, size, x + [a], buffer[i := a], i + 1, out)
  {
    var y := x + [a];
    assert y[..|y| - (i + 1)] == x[..|x| - i];
    assert y[|y| - (i + 1)..] == x[|x| - i..] + [a];
    assert buffer[i := a][..i + 1] == buffer[..i] + [a];
  }

  lemma BufferFlushes<A, B>(f: seq<A> -> seq<B>, size: nat, x: seq<A>, buffer: seq<A>, i: nat, out: seq<B>, a: A, buffer': seq<A>)
    requires size > 0 && Buffered(f, size, x, buffer, i, out) && i + 1 == size && |buffer'| == size
    ensures Buffered(f, size, x + [a], buffer', 0, out + f(buffer[i := a]))
  {
    var y, m := x + [a], |x| - i;
    assert buffer[i := a] == buffer[..i] + [a];
    assert y == x[..m] + buffer[i := a];
    AppendGroup(f, size, x[..m], buffer[i := a]);
    assert y[..|y| - 0] == y && y[|y| - 0..] == [];
  }

  lemma BufferEnds<A, B>(f: seq<A> -> seq<B>, size: nat, x: seq<A>, buffer: seq<A>, i: nat, out: seq<B>)
    requires size > 0 && Buffered(f, size, x, buffer, i, out)
    ensures Grouped(f, size, x) == if i == 0 then out else out + f(buffer[..i])
  {
    var m := |x| - i;
    assert x == x[..m] + x[m..];
    if i > 0 {
      AppendGroup(f, size, x[..m], buffer[..i]);
    } else {
      assert x[..m] == x;
    }
  }
}
