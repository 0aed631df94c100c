/** Reading a character window of a UTF-8 file without loading it (bp_sdk/file_tools.py).
    Characters are code points; the encoding is section 3 of RFC 3629. */
module TextWindow {
  import opened Options

  type Byte = b: int | 0 <= b < 256

  /** A Unicode scalar value: no surrogates. */
  type CodePoint = c: int | 0 <= c < 0xD800 || 0xE000 <= c < 0x11_0000

  type Text = seq<CodePoint>

  // ------------------------------------------------------------ the encoding, as its reference

  /** A continuation byte with the low six bits of x. */
  function Cont(x: nat): Byte {
    0x80 + x % 64
  }

  function Encode(c: CodePoint): (s: seq<Byte>)
    ensures 1 <= |s| <= 4
  {
    var n: nat := c;
    var lead: Byte := if n < 0x80 then n
                      else if n < 0x800 then 0xC0 + n / 64
                      else if n < 0x1_0000 then 0xE0 + n / 4096
                      else 0xF0 + n / 262144;
    if n < 0x80 then [lead]
    else if n < 0x800 then [lead, Cont(n)]
    else if n < 0x1_0000 then [lead, Cont(n / 64), Cont(n)]
    else [lead, Cont(n / 4096), Cont(n / 64), Cont(n)]
  }

  function EncodeAll(t: Text): seq<Byte> {
    if t == [] then [] else Encode(t[0]) + EncodeAll(t[1..])
  }

  // ------------------------------------------------------------ the decoder

  /** What a lead byte announces: how many continuation bytes, and the range of the first. */
  datatype Lead = Lead(more: nat, lo: int, hi: int) | NoLead

  function LeadOf(b: Byte): Lead {
    if b < 0x80 then Lead(0, 0x80, 0xBF)
    else if b < 0xC2 then NoLead
    else if b < 0xE0 then Lead(1, 0x80, 0xBF)
    else if b < 0xF0 then Lead(2, if b == 0xE0 then 0xA0 else 0x80, if b == 0xED then 0x9F else 0xBF)
    else if b < 0xF5 then Lead(3, if b == 0xF0 then 0x90 else 0x80, if b == 0xF4 then 0x8F else 0xBF)
    else NoLead
  }

  predicate Continues(lead: Lead, i: nat, b: Byte)
    requires lead.Lead?
  {
    if i == 1 then lead.lo <= b <= lead.hi else 0x80 <= b <= 0xBF
  }

  /** Whether the bytes present so far can belong to the character. */
  predicate Fits(lead: Lead, s: seq<Byte>)
    requires lead.Lead?
  {
    forall i :: 1 <= i < |s| && i <= lead.more ==> Continues(lead, i, s[i])
  }

  function Assemble(lead: Lead, s: seq<Byte>): int
    requires lead.Lead? && lead.more < |s| && lead.more <= 3
  {
    var a := s[0] as int;
    if lead.more == 0 then a
    else
      var b := s[1] as int - 0x80;
      if lead.more == 1 then (a - 0xC0) * 64 + b
      else
        var c := s[2] as int - 0x80;
        if lead.more == 2 then (a - 0xE0) * 4096 + b * 64 + c
        else
          var d := s[3] as int - 0x80;
          (a - 0xF0) * 262144 + b * 4096 + c * 64 + d
  }

  datatype Head = Char(c: CodePoint, size: nat) | Incomplete | Invalid

  function HeadOf(s: seq<Byte>): (h: Head)
    requires s != []
    ensures h.Char? ==> 1 <= h.size <= |s|
  {
    var lead := LeadOf(s[0]);
    if lead.NoLead? || !Fits(lead, s) then Invalid
    else if |s| <= lead.more then Incomplete
    else
      assert forall i :: 1 <= i <= lead.more ==> Continues(lead, i, s[i]);
      Char(Assemble(lead, s), lead.more + 1)
  }

  /** Decoding a whole byte string at once; None for anything but UTF-8. */
  function DecodeAll(s: seq<Byte>): Option<Text>
    decreases |s|
  {
    if s == [] then Some([])
    else
      match HeadOf(s)
      case Char(c, size) =>
        var rest := DecodeAll(s[size..]);
        if rest.None? then None else Some([c] + rest.value)
      case _ => None
  }

  lemma HeadByBytes(s: seq<Byte>, size: nat)
    requires 1 <= size <= |s| && LeadOf(s[0]).Lead? && LeadOf(s[0]).more + 1 == size
    requires size >= 2 ==> Continues(LeadOf(s[0]), 1, s[1])
    requires size >= 3 ==> Continues(LeadOf(s[0]), 2, s[2])
    requires size >= 4 ==> Continues(LeadOf(s[0]), 3, s[3])
    ensures HeadOf(s) == Char(Assemble(LeadOf(s[0]), s), size)
  {
    assert Fits(LeadOf(s[0]), s);
  }

  lemma EncodeHead(c: CodePoint, more: seq<Byte>)
    ensures HeadOf(Encode(c) + more) == Char(c, |Encode(c)|)
  {
    var s, n: nat := Encode(c) + more, c;
    assert forall i :: 0 <= i < |Encode(c)| ==> s[i] == Encode(c)[i];
    assert n / 64 / 64 == n / 4096 && n / 4096 / 64 == n / 262144;
    HeadByBytes(s, |Encode(c)|);
  }

  lemma Sextets(a: nat, b: nat, c: nat, d: nat)
    requires b < 64 && c < 64 && d < 64
    ensures (a * 64 + d) / 64 == a && (a * 64 + d) % 64 == d
    ensures var n := a * 4096 + c * 64 + d; n / 4096 == a && n / 64 % 64 == c && n % 64 == d
    ensures var n := a * 262144 + b * 4096 + c * 64 + d;
            n / 262144 == a && n / 4096 % 64 == b && n / 64 % 64 == c && n % 64 == d
  {
    var n := a * 262144 + b * 4096 + c * 64 + d;
    assert n / 64 == a * 4096 + b * 64 + c;
    assert n / 4096 == a * 64 + b;
    var m := a * 4096 + c * 64 + d;
    assert m / 64 == a * 64 + c;
  }

  lemma HeadEncodes(s: seq<Byte>)
    requires s != [] && HeadOf(s).Char?
    ensures Encode(HeadOf(s).c) == s[..HeadOf(s).size]
  {
    var lead := LeadOf(s[0]);
    if lead.more == 0 {
    } else if lead.more == 1 {
      assert Continues(lead, 1, s[1]);
      Sextets(s[0] - 0xC0, 0, 0, s[1] - 0x80);
    } else if lead.more == 2 {
      assert Continues(lead, 1, s[1]) && Continues(lead, 2, s[2]);
      Sextets(s[0] - 0xE0, 0, s[1] - 0x80, s[2] - 0x80);
    } else {
      assert Continues(lead, 1, s[1]) && Continues(lead, 2, s[2]) && Continues(lead, 3, s[3]);
      Sextets(s[0] - 0xF0, s[1] - 0x80, s[2] - 0x80, s[3] - 0x80);
    }
  }

  function Prepend(t: Text, r: Option<Text>): Option<Text> {
    if r.None? then None else Some(t + r.value)
  }

  lemma EncodeStep(c: CodePoint, more: seq<Byte>)
    ensures DecodeAll(Encode(c) + more) == Prepend([c], DecodeAll(more))
  {
    EncodeHead(c, more);
    assert (Encode(c) + more)[|Encode(c)|..] == more;
  }

  lemma DecodeStep(s: seq<Byte>) returns (c: CodePoint, size: nat)
    requires s != [] && DecodeAll(s).Some?
    ensures 1 <= size <= |s| && Encode(c) == s[..size]
    ensures DecodeAll(s[size..]).Some? && DecodeAll(s) == Prepend([c], DecodeAll(s[size..]))
  {
    HeadEncodes(s);
    c, size := HeadOf(s).c, HeadOf(s).size;
  }

  /** The decoder inverts the encoding, and accepts nothing else. */
  lemma {:induction false} DecodeInvertsEncode(t: Text)
    ensures DecodeAll(EncodeAll(t)) == Some(t)
  {
    if t != [] {
      DecodeInvertsEncode(t[1..]);
      EncodeStep(t[0], EncodeAll(t[1..]));
      assert t == [t[0]] + t[1..];
    }
  }

  lemma {:induction false} DecodeOnlyEncodings(s: seq<Byte>)
    requires DecodeAll(s).Some?
    ensures EncodeAll(DecodeAll(s).value) == s
    decreases |s|
  {
    if s != [] {
      var c, size := DecodeStep(s);
      DecodeOnlyEncodings(s[size..]);
      var rest := DecodeAll(s[size..]).value;
      assert ([c] + rest)[1..] == rest;
      assert s == s[..size] + s[size..];
    }
  }

  // ------------------------------------------------------------ the incremental decoder

  /** Everything that can be decoded now, and the bytes kept for later. */
  datatype Fed = Fed(text: Text, kept: seq<Byte>) | BadBytes

  function Feed(s: seq<Byte>): Fed
    decreases |s|
  {
    if s == [] then Fed([], [])
    else
      match HeadOf(s)
      case Invalid => BadBytes
      case Incomplete => Fed([], s)
      case Char(c, size) =>
        var rest := Feed(s[size..]);
        if rest.BadBytes? then BadBytes else Fed([c] + rest.text, rest.kept)
  }

  lemma HeadExtends(s: seq<Byte>, more: seq<Byte>)
    requires s != []
    ensures HeadOf(s) != Incomplete ==> HeadOf(s + more) == HeadOf(s)
  {
    var lead, t := LeadOf(s[0]), s + more;
    assert forall i :: 0 <= i < |s| ==> t[i] == s[i];
    if lead.Lead? && !Fits(lead, s) {
      var i :| 1 <= i < |s| && i <= lead.more && !Continues(lead, i, s[i]);
      assert !Continues(lead, i, t[i]);
    } else if lead.Lead? && |s| > lead.more {
      forall i | 1 <= i < |t| && i <= lead.more ensures Continues(lead, i, t[i]) {
        assert Continues(lead, i, s[i]);
      }
    }
  }

  /** Feeding a piece and keeping the tail loses nothing, wherever the piece was cut. */
  lemma {:induction false} FeedSplits(s: seq<Byte>, more: seq<Byte>)
    ensures DecodeAll(s + more) ==
            if Feed(s).BadBytes? then None else Prepend(Feed(s).text, DecodeAll(Feed(s).kept + more))
    decreases |s|
  {
    if s == [] {
      assert s + more == more && [] + more == more;
      if DecodeAll(more).Some? { assert [] + DecodeAll(more).value == DecodeAll(more).value; }
    } else {
      HeadExtends(s, more);
      match HeadOf(s) {
        case Invalid =>
        case Incomplete =>
          if DecodeAll(s + more).Some? { assert [] + DecodeAll(s + more).value == DecodeAll(s + more).value; }
        case Char(c, size) =>
          assert (s + more)[size..] == s[size..] + more;
          FeedSplits(s[size..], more);
          var rest := Feed(s[size..]);
          if rest.Fed? && DecodeAll(rest.kept + more).Some? {
            assert [c] + (rest.text + DecodeAll(rest.kept + more).value) == ([c] + rest.text) + DecodeAll(rest.kept + more).value;
          }
      }
    }
  }

  /** What is kept is never a complete character. */
  lemma {:induction false} KeptIsIncomplete(s: seq<Byte>)
    requires Feed(s).Fed? && Feed(s).kept != []
    ensures DecodeAll(Feed(s).kept) == None
    decreases |s|
  {
    if HeadOf(s).Char? { KeptIsIncomplete(s[HeadOf(s).size..]); }
  }

  // ------------------------------------------------------------ the window

  function Min(a: int, b: int): int {
    if a < b then a else b
  }

  function Slice(t: Text, lo: nat, hi: nat): Text
    requires lo <= hi
  {
    t[Min(lo, |t|)..Min(hi, |t|)]
  }

  datatype Window = Window(text: Text, start: nat, total: nat)

  /** The window read off the whole decoding. */
  function WindowOf(s: seq<Byte>, offset: nat, maxChars: nat): Option<Window> {
    var t := DecodeAll(s);
    if t.None? then None
    else Some(Window(Slice(t.value, offset, offset + maxChars), Min(offset, |t.value|), |t.value|))
  }

  lemma SliceFrom(t: Text, lo: nat, hi: nat)
    requires lo <= |t| && lo <= hi
    ensures Slice(t, lo, hi) == t[lo..Min(hi, |t|)]
  {
  }

  lemma SliceGrows(t: Text, piece: Text, lo: nat, hi: nat)
    requires lo <= hi
    ensures var from, to := lo - |t|, hi - |t|;
            Slice(t + piece, lo, hi) == Slice(t, lo, hi)
              + (if to > 0 && from < |piece| then piece[(if from > 0 then from else 0)..Min(to, |piece|)] else [])
  {
    var from, to := lo - |t|, hi - |t|;
    if to > 0 && from < |piece| {
      var a, b := if from > 0 then from else 0, Min(to, |piece|);
      if from > 0 {
        assert Slice(t, lo, hi) == [];
      }
    }
  }

  /** One read: either the bytes are bad, or the decoded part grows by what was fed. */
  lemma ReadStep(s: seq<Byte>, seen: Text, buffer: seq<Byte>, read: nat, size: nat)
    requires read + size <= |s| && DecodeAll(s) == Prepend(seen, DecodeAll(buffer + s[read..]))
    ensures var fed := Feed(buffer + s[read..read + size]);
            if fed.BadBytes? then DecodeAll(s).None?
            else
              && DecodeAll(s) == Prepend(seen + fed.text, DecodeAll(fed.kept + s[read + size..]))
              && (read + size == |s| && fed.kept != [] ==> DecodeAll(s).None?)
  {
    var chunk, rest := s[read..read + size], s[read + size..];
    assert s[read..] == chunk + rest;
    assert buffer + s[read..] == (buffer + chunk) + rest;
    FeedSplits(buffer + chunk, rest);
    var fed := Feed(buffer + chunk);
    if fed.Fed? {
      PrependTwice(seen, fed.text, DecodeAll(fed.kept + rest));
      if read + size == |s| && fed.kept != [] {
        KeptIsIncomplete(buffer + chunk);
        assert fed.kept + rest == fed.kept;
      }
    }
  }

  /** So far `seen` was decoded, and `buffer` is kept of the first `read` bytes. */
  ghost predicate Progress(s: seq<Byte>, seen: Text, buffer: seq<Byte>, read: nat) {
    read <= |s| && DecodeAll(s) == Prepend(seen, DecodeAll(buffer + s[read..]))
  }

  lemma NothingRead(s: seq<Byte>)
    ensures Progress(s, [], [], 0)
  {
    assert [] + s[0..] == s;
    if DecodeAll(s).Some? { assert [] + DecodeAll(s).value == DecodeAll(s).value; }
  }

  lemma AllRead(s: seq<Byte>, seen: Text, offset: nat, maxChars: nat)
    requires Progress(s, seen, [], |s|)
    ensures WindowOf(s, offset, maxChars)
            == Some(Window(Slice(seen, offset, offset + maxChars), Min(offset, |seen|), |seen|))
  {
    assert [] + s[|s|..] == [];
    assert seen + [] == seen;
  }

  /** The part of a decoded piece that falls into the window. */
  method Keep(ghost seen: Text, piece: Text, pos: nat, parts: Text, offset: nat, wantHi: nat) returns (grown: Text)
    requires pos == |seen| && offset <= wantHi && parts == Slice(seen, offset, wantHi)
    ensures grown == Slice(seen + piece, offset, wantHi)
  {
    SliceGrows(seen, piece, offset, wantHi);
    var n, lo, hi := |piece|, offset - pos, wantHi - pos;
    if hi > 0 && lo < n {
      grown := parts + piece[(if lo > 0 then lo else 0)..Min(hi, n)];
    } else {
      grown := parts;
    }
  }

  /** decoder.decode(chunk, final) on the next bytes; None raises UnicodeDecodeError. */
  method DecodeNext(s: seq<Byte>, ghost seen: Text, buffer: seq<Byte>, read: nat, size: nat) returns (fed: Option<Fed>)
    requires Progress(s, seen, buffer, read) && read + size <= |s| && (size == 0 ==> read == |s|)
    ensures fed.None? ==> DecodeAll(s).None?
    ensures fed.Some? ==> fed.value.Fed? && Progress(s, seen + fed.value.text, fed.value.kept, read + size)
    ensures fed.Some? && size == 0 ==> fed.value.kept == []
  {
    ReadStep(s, seen, buffer, read, size);
    var f := Feed(buffer + s[read..read + size]);
    if f.BadBytes? || (size == 0 && f.kept != []) {
      return None;
    }
    return Some(f);
  }

  /** _slice_text_file: any positive read sizes give the window of the whole decoding, and
      fail exactly when the bytes are not UTF-8. */
  method SliceTextFile(s: seq<Byte>, offset: nat, maxChars: nat) returns (r: Option<Window>)
    ensures r == WindowOf(s, offset, maxChars)
  {
    var buffer: seq<Byte>, pos, wantHi, parts: Text, read := [], 0, offset + maxChars, [], 0;
    ghost var seen: Text := [];
    NothingRead(s);
    var final := false;
    while !final
      invariant Progress(s, seen, buffer, read) && pos == |seen|
      invariant parts == Slice(seen, offset, wantHi)
      invariant final ==> buffer == [] && read == |s|
      decreases if final then 0 else 1, |s| - read
    {
      var size := 0;
      if read < |s| {
        size :| 1 <= size <= |s| - read;
      }
      final := size == 0;
      var fed := DecodeNext(s, seen, buffer, read, size);
      if fed.None? {
        return None;
      }
      var text := fed.value.text;
      parts := Keep(seen, text, pos, parts, offset, wantHi);
      pos := pos + |text|;
      seen, buffer, read := seen + text, fed.value.kept, read + size;
    }
    AllRead(s, seen, offset, maxChars);
    return Some(Window(parts, Min(offset, pos), pos));
  }

  lemma PrependTwice(a: Text, b: Text, r: Option<Text>)
    ensures Prepend(a, Prepend(b, r)) == Prepend(a + b, r)
  {
    if r.Some? { assert a + (b + r.value) == (a + b) + r.value; }
  }

  // ------------------------------------------------------------ paging

  const DEFAULT_READ_CHARS: int := 20000
  const MAX_READ_CHARS: int := 500000

  /** _clamp_int; None stands for an argument that is no number. */
  function Clamp(value: Option<int>, default: int, lo: int, hi: Option<int>): (n: int)
    requires lo <= default && (hi.Some? ==> default <= hi.value)
    ensures lo <= n && (hi.Some? ==> n <= hi.value)
    ensures value.None? ==> n == default
    ensures value.Some? && value.value <= lo ==> n == lo
    ensures value.Some? && lo <= value.value ==> if hi.Some? && hi.value < value.value then n == hi.value else n == value.value
  {
    if value.None? then default
    else
      var n := if value.value < lo then lo else value.value;
      if hi.Some? then Min(n, hi.value) else n
  }

  datatype Page = Page(text: Text, next: Option<nat>)

  /** _read_file on a text file: the window, and the offset to continue at if any remain. */
  method ReadPage(s: seq<Byte>, offset: Option<int>, maxChars: Option<int>) returns (page: Option<Page>)
    ensures page.None? <==> DecodeAll(s).None?
    ensures page.Some? ==>
              var t, from := DecodeAll(s).value, Clamp(offset, 0, 0, None);
              var end := Min(from, |t|) + |page.value.text|;
              && page.value.text == Slice(t, from, from + Clamp(maxChars, DEFAULT_READ_CHARS, 1, Some(MAX_READ_CHARS)))
              && page.value.next == (if end < |t| then Some(end) else None)
  {
    var size := Clamp(maxChars, DEFAULT_READ_CHARS, 1, Some(MAX_READ_CHARS));
    var from := Clamp(offset, 0, 0, None);
    var w := SliceTextFile(s, from, size);
    if w.None? { return None; }
    var end := w.value.start + |w.value.text|;
    var remaining := w.value.total - end;
    return Some(Page(w.value.text, if remaining > 0 then Some(end) else None));
  }

  /** Following the reported offsets from 0, with whatever sizes are asked for, ends and
      yields the whole text, each character once. */
  method PageThrough(s: seq<Byte>, ask: nat -> Option<int>) returns (whole: Option<Text>)
    ensures whole == DecodeAll(s)
  {
    var text: Text, offset: nat, more, n := [], 0, true, 0;
    while more
      invariant DecodeAll(s).Some? || n == 0
      invariant DecodeAll(s).Some? ==> offset <= |DecodeAll(s).value| && text == DecodeAll(s).value[..offset]
      invariant !more ==> DecodeAll(s).Some? && offset == |DecodeAll(s).value|
      decreases if more then 1 else 0, if DecodeAll(s).Some? then |DecodeAll(s).value| - offset else 0
    {
      var page := ReadPage(s, Some(offset), ask(n));
      if page.None? { return None; }
      ghost var t := DecodeAll(s).value;
      SliceFrom(t, offset, offset + Clamp(ask(n), DEFAULT_READ_CHARS, 1, Some(MAX_READ_CHARS)));
      assert t[..offset] + t[offset..offset + |page.value.text|] == t[..offset + |page.value.text|];
      text, n := text + page.value.text, n + 1;
      offset := offset + |page.value.text|;
      more := page.value.next.Some?;
    }
    assert DecodeAll(s).value[..offset] == DecodeAll(s).value;
    return Some(text);
  }
}
