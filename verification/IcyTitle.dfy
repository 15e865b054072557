/** Metadata blocks built by the server itself from the artist, title and URL set for a mount (src/format_mp3.c). */
module IcyTitle {
  import opened Octets
  import opened IcyFraming
  import opened IcyFilter

  const MAX_META_LEN := 255 * 16
  /** "StreamTitle='" */
  const STREAM_TITLE: seq<byte> := TITLE_TAG + [39]
  /** "StreamUrl='" */
  const STREAM_URL: seq<byte> := [83, 116, 114, 101, 97, 109, 85, 114, 108, 61, 39]
  /** " - " and "';" */
  const DASH: seq<byte> := [32, 45, 32]
  const QUOTE_END: seq<byte> := [39, 59]

  predicate QuoteEndAt(s: seq<byte>, i: int) {
    0 <= i < |s| - 1 && s[i] == 39 && s[i + 1] == 59
  }

  /** strstr for "';": the first place where it occurs. */
  function FindQuoteEnd(s: seq<byte>): (at: Option<nat>)
    ensures at.Some? ==> QuoteEndAt(s, at.value) && forall i :: QuoteEndAt(s, i) ==> at.value <= i
    ensures at == None ==> forall i :: !QuoteEndAt(s, i)
  {
    if |s| < 2 then None
    else if s[0] == 39 && s[1] == 59 then Some(0)
    else
      var rest := FindQuoteEnd(s[1..]);
      assert forall i :: QuoteEndAt(s, i) ==> QuoteEndAt(s[1..], i - 1);
      if rest == None then None else Some(rest.value + 1)
  }

  /** snprintf of `text` to `p + at`: at most `|p| - at - 1` bytes of it, then a NUL. */
  function Print(p: seq<byte>, at: nat, text: seq<byte>): (p': seq<byte>)
    requires at < |p|
    ensures |p'| == |p| && p'[..at] == p[..at]
    ensures at + |text| < |p| ==> p'[at..at + |text|] == text
  {
    var room := |p| - at - 1;
    var shown := if |text| <= room then text else text[..room];
    p[..at] + shown + [0] + p[at + |shown| + 1..]
  }

  datatype Tags = Tags(artist: Option<seq<byte>>, title: seq<byte>, url: Option<seq<byte>>, inlineUrl: Option<seq<byte>>)

  /** What is shown to listeners. */
  function Caption(t: Tags): (text: seq<byte>) {
    if t.artist.Some? then t.artist.value + DASH + t.title else t.title
  }

  /** The length the server works out before it allocates the block. */
  function MessageLength(t: Tags): (len: nat) {
    16 + |Caption(t)| +
    if t.inlineUrl.Some? then
      var end := FindQuoteEnd(t.inlineUrl.value); if end.Some? then end.value + 2 else 0
    else if t.url.Some? then |t.url.value| + |STREAM_URL| + 2
    else 0
  }

  function TitleText(t: Tags, lenByte: byte): (text: seq<byte>) {
    [lenByte] + STREAM_TITLE + (Caption(t) + QUOTE_END)
  }

  lemma Layout(b: byte, head: seq<byte>, rest: seq<byte>, block: seq<byte>)
    requires [b] + head + rest <= block
    ensures block[0] == b && block[1..1 + |head|] == head && rest <= block[1 + |head|..]
  {
    var text := [b] + head + rest;
    assert forall i :: 0 <= i < |text| ==> block[i] == text[i];
    assert forall i :: 0 <= i < |rest| ==> block[1 + |head| + i] == rest[i];
    assert block[1 + |head|..][..|rest|] == rest;
  }

  function AddUrl(p: seq<byte>, r: nat, t: Tags): (p': seq<byte>)
    requires r < |p|
    requires t.inlineUrl.Some? ==> |t.inlineUrl.value| >= 11
    ensures |p'| == |p| && p'[..r] == p[..r]
  {
    if t.inlineUrl.Some? then
      var end := FindQuoteEnd(t.inlineUrl.value);
      var urlLen := if end.Some? then end.value + 2 else |p|;
      if |p| - r > urlLen then Print(p, r, STREAM_URL + t.inlineUrl.value[11..] + QUOTE_END) else p
    else if t.url.Some? then Print(p, r, STREAM_URL + t.url.value + QUOTE_END)
    else p
  }

  /**
   The block for the tags, None when it would be too long. It is framed as the wire format asks, carries the
   caption in full, and any server accepts it as inline metadata.
   */
  function TitleBlock(t: Tags): (block: Option<seq<byte>>)
    requires t.inlineUrl.Some? ==> |t.inlineUrl.value| >= 11
    ensures block == None <==> MessageLength(t) > MAX_META_LEN
    ensures block.Some? ==> IsTitle(block.value) && TitleText(t, block.value[0]) <= block.value
    ensures block.Some? ==> |TitleText(t, block.value[0])| < |block.value|
  {
    var len := MessageLength(t);
    if len > MAX_META_LEN then None
    else
      var lenByte := (len - 1) / 16 + 1;
      var size := lenByte * 16 + 1;
      var text := TitleText(t, lenByte);
      var p := Print(seq(size, _ => 0), 0, text);
      var block := AddUrl(p, |text|, t);
      assert p[..|text|] == text;
      assert block[..|text|] == text;
      Layout(lenByte, STREAM_TITLE, Caption(t) + QUOTE_END, block);
      assert TITLE_TAG == block[1..][..12] by {
        assert STREAM_TITLE[..12] == TITLE_TAG && block[1..14][..12] == block[1..][..12];
      }
      Some(block)
  }

  /** A text in a block of `size` bytes: cut so that a NUL remains, and NULs after it. */
  function Padded(text: seq<byte>, size: nat): (bytes: seq<byte>)
    requires size > 0
  {
    if |text| < size then text + seq(size - |text|, _ => 0) else text[..size - 1] + [0]
  }

  lemma PrintPadded(size: nat, at: nat, front: seq<byte>, text: seq<byte>)
    requires |front| == at < size
    ensures Print(Padded(front, size), at, text) == Padded(front + text, size)
  {
    var p := Padded(front, size);
    var room := size - at - 1;
    assert p[..at] == front;
    if |text| <= room {
      assert p[at + |text| + 1..] == seq(size - at - |text| - 1, _ => 0);
    } else {
      assert (front + text)[..size - 1] == front + text[..room];
    }
  }

  /** The title as it stands in the block: the artist, if there is one, comes first. */
  function ShownTitle(t: Tags): (text: seq<byte>) {
    STREAM_TITLE + (if t.artist.Some? then t.artist.value + ([32, 45, 32] + t.title) else t.title) + [39, 59]
  }

  /** The URL: the one that comes with the stream or, without that, the one set for it. */
  function ShownUrl(t: Tags): (text: seq<byte>)
    requires t.inlineUrl.Some? ==> |t.inlineUrl.value| >= 11
  {
    if t.inlineUrl.Some? then
      if FindQuoteEnd(t.inlineUrl.value).Some? then STREAM_URL + t.inlineUrl.value[11..] + [39, 59] else []
    else if t.url.Some? then STREAM_URL + t.url.value + [39, 59]
    else []
  }

  lemma TextShown(t: Tags, lenByte: byte)
    ensures TitleText(t, lenByte) == [lenByte] + ShownTitle(t) && |TitleText(t, lenByte)| == 16 + |Caption(t)|
  {
  }

  lemma UrlShown(t: Tags, size: nat, text: seq<byte>)
    requires t.inlineUrl.Some? ==> |t.inlineUrl.value| >= 11
    requires |text| == 16 + |Caption(t)| && MessageLength(t) < size
    ensures AddUrl(Padded(text, size), |text|, t) == Padded(text + ShownUrl(t), size)
    ensures t.inlineUrl.None? ==> |text + ShownUrl(t)| <= MessageLength(t)
  {
    hide Print, Padded, FindQuoteEnd;
    assert |Padded(text, size)| == size by { PaddedLength(text, size); }
    PrintPadded(size, |text|, text, ShownUrl(t));
    assert text + [] == text;
  }

  lemma PaddedLength(text: seq<byte>, size: nat)
    requires size > 0
    ensures |Padded(text, size)| == size
  {
  }

  /** The bytes of the block: its length byte, the title, the URL, and NULs; what was set is all there unless the URL came with the stream. */
  lemma BlockBytes(t: Tags)
    requires (t.inlineUrl.Some? ==> |t.inlineUrl.value| >= 11) && TitleBlock(t).Some?
    ensures var block := TitleBlock(t).value;
            var size: nat := 16 * (block[0] as int) + 1;
            && |block| == size && block == Padded([block[0]] + ShownTitle(t) + ShownUrl(t), size)
            && (t.inlineUrl.None? ==> |[block[0]] + ShownTitle(t) + ShownUrl(t)| < size)
  {
    hide FindQuoteEnd, Print, Padded, AddUrl, ShownTitle, ShownUrl, TitleText;
    var len := MessageLength(t);
    var lenByte: byte := (len - 1) / 16 + 1;
    var size: nat := (lenByte as int) * 16 + 1;
    var text := TitleText(t, lenByte);
    TextShown(t, lenByte);
    ZerosPadded(size);
    PrintPadded(size, 0, [], text);
    assert [] + text == text;
    UrlShown(t, size, text);
    assert TitleBlock(t).value == AddUrl(Print(seq(size, _ => 0), 0, text), |text|, t);
    FirstByte(text, ShownUrl(t), size);
  }

  lemma FirstByte(text: seq<byte>, more: seq<byte>, size: nat)
    requires text != [] && 1 < size
    ensures |Padded(text + more, size)| == size && Padded(text + more, size)[0] == text[0]
  {
  }

  lemma ZerosPadded(size: nat)
    requires size > 0
    ensures Padded([], size) == seq(size, _ => 0)
  {
  }

  /** The title a server takes out of a block for its statistics: the text between "StreamTitle='" and the first "';". */
  function TitleOf(block: seq<byte>): (title: Option<seq<byte>>) {
    if |block| < 14 || block[1..14] != STREAM_TITLE then None
    else
      var end := FindQuoteEnd(block[14..]);
      if end == None then None else Some(block[14..14 + end.value])
  }

  ghost predicate HasQuoteEnd(s: seq<byte>) {
    exists i :: QuoteEndAt(s, i)
  }

  /**
   The next server keeps its own copy of a block, with the last byte cleared. It recovers the caption from it
   exactly when the caption does not itself contain the closing "';".
   */
  lemma CaptionRecovered(t: Tags)
    requires (t.inlineUrl.Some? ==> |t.inlineUrl.value| >= 11) && TitleBlock(t).Some?
    ensures var block := TitleBlock(t).value;
            TitleOf(Kept(block)) == Some(Caption(t)) <==> !HasQuoteEnd(Caption(t))
  {
    hide TitleOf, TitleBlock;
    var block := TitleBlock(t).value;
    var text := TitleText(t, block[0]);
    assert Kept(block)[..|text|] == block[..|text|] == text;
    CaptionIn(t, Kept(block));
  }

  /** The title `a';b` is not recovered. */
  lemma CaptionCut(t: Tags)
    requires t == Tags(None, [97, 39, 59, 98], None, None)
    ensures TitleBlock(t).Some? && TitleOf(Kept(TitleBlock(t).value)) != Some(Caption(t))
  {
    hide TitleOf, TitleBlock, FindQuoteEnd;
    assert QuoteEndAt(Caption(t), 1);
    assert MessageLength(t) == 20;
    CaptionRecovered(t);
  }

  /** The same for any block that starts as the one for the tags does. */
  lemma CaptionIn(t: Tags, block: seq<byte>)
    requires TitleText(t, if block == [] then 0 else block[0]) <= block
    ensures TitleOf(block) == Some(Caption(t)) <==> !HasQuoteEnd(Caption(t))
  {
    Layout(block[0], STREAM_TITLE, Caption(t) + QUOTE_END, block);
    FirstQuoteEnd(Caption(t), block[14..]);
    var end := FindQuoteEnd(block[14..]).value;
    assert block[14..14 + end] == block[14..][..end];
  }

  lemma FirstQuoteEnd(c: seq<byte>, s: seq<byte>)
    requires c + QUOTE_END <= s
    ensures FindQuoteEnd(s).Some? && (s[..FindQuoteEnd(s).value] == c <==> !HasQuoteEnd(c))
  {
    assert s[|c|] == 39 && s[|c| + 1] == 59 by {
      assert s[..|c| + 2] == c + QUOTE_END;
    }
    assert QuoteEndAt(s, |c|);
    var end := FindQuoteEnd(s).value;
    assert forall i :: 0 <= i < |c| ==> s[i] == c[i];
    if HasQuoteEnd(c) {
      var i :| QuoteEndAt(c, i);
      assert QuoteEndAt(s, i);
    } else {
      assert !QuoteEndAt(c, end);
      assert s[..|c|] == c;
    }
  }
}
