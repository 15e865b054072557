/** Octets and the small vocabulary shared by the stream formats. */
module Octets {

  type byte = x: int | 0 <= x < 256

  datatype Option<+T> = None | Some(value: T)

  /** The C string that starts at the beginning of `s`: everything before the first NUL. */
  function CString(s: seq<byte>): (r: seq<byte>)
    ensures r <= s && 0 !in r
    ensures |r| < |s| ==> s[|r|] == 0
  {
    if s == [] || s[0] == 0 then [] else [s[0]] + CString(s[1..])
  }

  /** What a socket send of `len` bytes may report: any value up to `len`; zero and negative mean nothing sent. */
  function SendResult(wanted: int, len: nat): (ret: int)
    ensures ret <= len
  {
    if wanted > len then len else wanted
  }

  /** The bytes a socket takes of those it is offered, when it answers `ret`. */
  function Accepted(ret: int, offer: seq<byte>): (bytes: seq<byte>)
    ensures bytes <= offer && (ret >= |offer| ==> bytes == offer) && (ret > 0 && offer != [] ==> bytes != [])
    ensures |bytes| == if SendResult(ret, |offer|) > 0 then SendResult(ret, |offer|) else 0
  {
    if ret <= 0 then [] else if ret > |offer| then offer else offer[..ret]
  }

  /** The bytes of a sequence of buffers. */
  function Bytes(bufs: seq<seq<byte>>): (all: seq<byte>) {
    if bufs == [] then [] else Bytes(bufs[..|bufs| - 1]) + bufs[|bufs| - 1]
  }

  lemma {:induction false} BytesAppend(a: seq<seq<byte>>, b: seq<seq<byte>>)
    ensures Bytes(a + b) == Bytes(a) + Bytes(b)
    decreases |b|
  {
    if b == [] {
      assert a + b == a;
    } else {
      var b', x := b[..|b| - 1], b[|b| - 1];
      BytesAppend(a, b');
      assert (a + b)[..|a + b| - 1] == a + b';
      assert Bytes(a) + Bytes(b') + x == Bytes(a) + (Bytes(b') + x);
    }
  }

  lemma BytesOne(x: seq<byte>)
    ensures Bytes([x]) == x
  {
    assert [x][..0] == [];
  }

  lemma BytesMore(bufs: seq<seq<byte>>, k: nat)
    requires k < |bufs|
    ensures Bytes(bufs[..k + 1]) == Bytes(bufs[..k]) + bufs[k]
  {
    assert bufs[..k + 1][..k] == bufs[..k];
  }
}
