/** Circular buffers as values: reading a window and pasting a block, each of
    which may run over the end of the buffer and continue at its start. */
module KfifoRing {
  import opened Util

  /** Index x of a circular buffer of n cells, for x below 2n. */
  function Slot(x: nat, n: nat): nat
    requires x < 2 * n
  {
    if x < n then x else x - n
  }

  /** The len cells that start at off. */
  function Window<T>(d: seq<T>, off: nat, len: nat): (w: seq<T>)
    requires off < |d| && len <= |d|
    ensures |w| == len
  {
    seq(len, k requires 0 <= k < len => d[Slot(off + k, |d|)])
  }

  /** Writes s from off on: as much as fits before the end, the rest at the start. */
  function Paste<T>(d: seq<T>, off: nat, s: seq<T>): (r: seq<T>)
    requires off < |d| && |s| <= |d|
    ensures |r| == |d|
  {
    var l := Min(|s|, |d| - off);
    var first := d[..off] + s[..l] + d[off + l..];
    s[l..] + first[|s| - l..]
  }

  /** Where each cell of a paste comes from. */
  lemma PasteCell<T>(d: seq<T>, off: nat, s: seq<T>, c: nat)
    requires off < |d| && |s| <= |d| && c < |d|
    ensures var k := if off <= c then c - off else c + |d| - off;
            Paste(d, off, s)[c] == if k < |s| then s[k] else d[c]
  {
  }

  /** Pasting right behind a window extends the window. */
  lemma PasteExtends<T>(d: seq<T>, off: nat, used: nat, s: seq<T>)
    requires off < |d| && used + |s| <= |d|
    ensures Window(Paste(d, Slot(off + used, |d|), s), off, used + |s|) == Window(d, off, used) + s
  {
    var at := Slot(off + used, |d|);
    var w, v := Window(Paste(d, at, s), off, used + |s|), Window(d, off, used) + s;
    forall k: nat | k < used + |s| ensures w[k] == v[k] {
      PasteCell(d, at, s, Slot(off + k, |d|));
    }
  }

  /** A window can be read piecewise. */
  lemma WindowSplit<T>(d: seq<T>, off: nat, len: nat, n: nat)
    requires off < |d| && n <= len <= |d|
    ensures Window(d, off, n) == Window(d, off, len)[..n]
    ensures off + n < 2 * |d|
    ensures Window(d, Slot(off + n, |d|), len - n) == Window(d, off, len)[n..]
  {
    var w, v := Window(d, Slot(off + n, |d|), len - n), Window(d, off, len);
    forall k: nat | k < len - n ensures w[k] == v[n + k] {
      assert w[k] == d[Slot(Slot(off + n, |d|) + k, |d|)];
      assert v[n + k] == d[Slot(off + (n + k), |d|)];
    }
  }

  /** The two block copies of kfifo_copy_out read a window. */
  lemma TwoCopies<T>(d: seq<T>, off: nat, len: nat)
    requires off < |d| && len <= |d|
    ensures var l := Min(len, |d| - off);
            d[off..off + l] + d[..len - l] == Window(d, off, len)
  {
    var l := Min(len, |d| - off);
    var a, w := d[off..off + l] + d[..len - l], Window(d, off, len);
    forall k: nat | k < len ensures a[k] == w[k] {
      assert w[k] == d[Slot(off + k, |d|)];
    }
  }
}
