/** The stream of a mount as the sequence of all buffers ever appended, and contiguous slices of it. */
module StreamSlices {
  import opened Octets

  /** Everything from the first byte of buffer `from` up to `pos` bytes into buffer `n`. */
  function Slice(all: seq<seq<byte>>, from: nat, n: nat, pos: nat): (bytes: seq<byte>)
    requires from <= n < |all| && pos <= |all[n]|
  {
    Bytes(all[from..n]) + all[n][..pos]
  }

  /** Offset in the stream of the first byte of buffer `n`. */
  function Offset(all: seq<seq<byte>>, n: nat): (at: nat)
    requires n <= |all|
  {
    |Bytes(all[..n])|
  }

  /** It is one contiguous piece of the stream. */
  lemma SliceIsContiguous(all: seq<seq<byte>>, from: nat, n: nat, pos: nat)
    requires from <= n < |all| && pos <= |all[n]|
    ensures Offset(all, from) <= Offset(all, n) + pos <= |Bytes(all)|
    ensures Slice(all, from, n, pos) == Bytes(all)[Offset(all, from)..Offset(all, n) + pos]
  {
    hide Bytes;
    var before, middle, rest := all[..from], all[from..n], all[n + 1..];
    assert all[..n] == before + middle;
    assert all == all[..n] + ([all[n]] + rest);
    BytesAppend(before, middle);
    BytesAppend(all[..n], [all[n]] + rest);
    BytesAppend([all[n]], rest);
    BytesOne(all[n]);
    Cut(Bytes(before), Bytes(middle), all[n], Bytes(rest), pos);
  }

  lemma Cut(a: seq<byte>, m: seq<byte>, x: seq<byte>, r: seq<byte>, pos: nat)
    requires pos <= |x|
    ensures var s := a + m + (x + r); |a| + |m| + pos <= |s| && s[|a|..|a| + |m| + pos] == m + x[..pos]
  {
  }

  lemma SliceGrows(all: seq<seq<byte>>, from: nat, n: nat, pos: nat, more: nat)
    requires from <= n < |all| && pos + more <= |all[n]|
    ensures Slice(all, from, n, pos + more) == Slice(all, from, n, pos) + all[n][pos..pos + more]
  {
    assert all[n][..pos + more] == all[n][..pos] + all[n][pos..pos + more];
  }

  lemma SliceMovesOn(all: seq<seq<byte>>, from: nat, n: nat)
    requires from <= n && n + 1 < |all|
    ensures Slice(all, from, n + 1, 0) == Slice(all, from, n, |all[n]|)
  {
    assert all[from..n + 1][..n - from] == all[from..n];
    assert all[n][..|all[n]|] == all[n];
  }

  lemma SliceEmpty(all: seq<seq<byte>>, n: nat)
    requires n < |all|
    ensures Slice(all, n, n, 0) == []
  {
    assert all[n..n] == [];
  }

  lemma SliceKeeps(all: seq<seq<byte>>, more: seq<seq<byte>>, from: nat, n: nat, pos: nat)
    requires from <= n < |all| && pos <= |all[n]|
    ensures Slice(all + more, from, n, pos) == Slice(all, from, n, pos)
  {
    assert (all + more)[from..n] == all[from..n];
  }

  /** Size of the part of the stream from buffer `n` on. */
  function Size(all: seq<seq<byte>>, n: nat): (size: nat)
    requires n <= |all|
  {
    |Bytes(all[n..])|
  }

  lemma SizeAppend(all: seq<seq<byte>>, x: seq<byte>, n: nat)
    requires n <= |all|
    ensures Size(all + [x], n) == Size(all, n) + |x|
  {
    assert (all + [x])[n..][..|all| - n] == all[n..];
  }

  lemma SizeEmpty(all: seq<seq<byte>>)
    ensures Size(all, |all|) == 0
  {
    assert all[|all|..] == [];
  }

  lemma SizeDrop(all: seq<seq<byte>>, n: nat)
    requires n < |all|
    ensures Size(all, n) == |all[n]| + Size(all, n + 1)
  {
    assert all[n..] == [all[n]] + all[n + 1..];
    BytesAppend([all[n]], all[n + 1..]);
    BytesOne(all[n]);
  }
}
