/**
 * The arithmetic of the Andor SIF opener: which header lines hold the stack
 * size and the region of interest, where the pixel data starts, how large a
 * frame is, which frames are read, and at which byte each frame begins.
 */
module SifHeader {
  import opened Wrappers
  import opened JavaInt
  import opened Decimal
  import opened JavaSplit

  newtype byte = x: int | 0 <= x < 256

  /** The byte ending a header line. */
  const NEWLINE: byte := 10

  const VERSION_4_9: string := "4.9.30004.0"
  const VERSION_4_13: string := "4.13.30000.0"
  const VERSION_4_15: string := "4.15.30000.0"

  /** The region of interest: its corners and the horizontal and vertical binning. */
  datatype Roi = Roi(left: int, top: int, right: int, bottom: int, xbin: int, ybin: int)

  /** What the header loop takes from the header. */
  datatype Header = Header(version: string, ver: int, spool: int, stacksize: int, roi: Roi)

  // ---------------------------------------------------------------------------
  // The header lines, one reader line each.

  /** Every header line split at single spaces. */
  function Tokens(lines: seq<string>): (t: seq<seq<string>>)
    ensures |t| == |lines|
  {
    if lines == [] then [] else Tokens(lines[..|lines| - 1]) + [Split(lines[|lines| - 1])]
  }

  lemma {:induction false} TokensAt(lines: seq<string>, i: nat)
    requires i < |lines|
    ensures Tokens(lines)[i] == Split(lines[i])
  {
    if i < |lines| - 1 {
      TokensAt(lines[..|lines| - 1], i);
    }
  }

  /** The tokens of header line i; None past the last line, where the reader yields null. */
  function LineTokens(lines: seq<string>, i: nat): Option<seq<string>> {
    if i < |lines| then Some(Tokens(lines)[i]) else None
  }

  /**
   * Line 2: the acquisition date as a long at token 4, and the software
   * version in tokens 54 to 57 joined by dots; None where reading it throws.
   */
  function VersionLine(tokens: Option<seq<string>>): Option<string> {
    if tokens.None? then None
    else
      var t := tokens.value;
      if |t| < 58 || ParseLong(t[4]).None? then None
      else Some(t[54] + "." + t[55] + "." + t[56] + "." + t[57])
  }

  /** The header grows by four lines for versions 4.13 and 4.15; every other version keeps the initial 0. */
  function VerOf(version: string): (ver: int)
    ensures ver == 0 || ver == 4
  {
    if version == VERSION_4_13 || version == VERSION_4_15 then 4
    else 0
  }

  /**
   * Line 7 tells spooled data, one more header line, but only when ver is
   * 0: for any other ver the first token is not looked at, so a line
   * without tokens is then no error.
   */
  function SpoolLine(tokens: Option<seq<string>>, ver: int): Option<int> {
    if tokens.None? then None
    else
      var t := tokens.value;
      if ver != 0 then Some(0)
      else if |t| == 0 then None
      else if t[0] == "Spooled" then Some(1)
      else Some(0)
  }

  /** The stack size, token 6 of its line. */
  function StackSizeLine(tokens: Option<seq<string>>): Option<int> {
    if tokens.None? then None
    else
      var t := tokens.value;
      if |t| < 7 then None else ParseInt(t[6])
  }

  /** The region of interest, tokens 1 to 6 of its line. */
  function RoiLine(tokens: Option<seq<string>>): Option<Roi> {
    if tokens.None? then None
    else
      var t := tokens.value;
      if |t| < 7 then None
      else
        var left, top, right := ParseInt(t[1]), ParseInt(t[2]), ParseInt(t[3]);
        var bottom, xbin, ybin := ParseInt(t[4]), ParseInt(t[5]), ParseInt(t[6]);
        if left.None? || top.None? || right.None? || bottom.None? || xbin.None? || ybin.None? then None
        else Some(Roi(left.value, top.value, right.value, bottom.value, xbin.value, ybin.value))
  }

  /**
   * The header as the loop reads it: the version from line 2, the spool flag
   * from line 7, then the stack size and the region of interest on lines
   * 24 and 25, both shifted down by the spool flag and by ver.
   */
  function HeaderOf(lines: seq<string>): Option<Header> {
    match VersionLine(LineTokens(lines, 2))
    case None => None
    case Some(version) =>
      var ver := VerOf(version);
      match SpoolLine(LineTokens(lines, 7), ver)
      case None => None
      case Some(spool) =>
        match StackSizeLine(LineTokens(lines, 24 + spool + ver))
        case None => None
        case Some(stacksize) =>
          match RoiLine(LineTokens(lines, 25 + spool + ver))
          case None => None
          case Some(roi) => Some(Header(version, ver, spool, stacksize, roi))
  }

  lemma HeaderOfSome(lines: seq<string>, version: string, spool: int, stacksize: int, roi: Roi)
    requires VersionLine(LineTokens(lines, 2)) == Some(version)
    requires SpoolLine(LineTokens(lines, 7), VerOf(version)) == Some(spool)
    requires StackSizeLine(LineTokens(lines, 24 + spool + VerOf(version))) == Some(stacksize)
    requires RoiLine(LineTokens(lines, 25 + spool + VerOf(version))) == Some(roi)
    ensures HeaderOf(lines) == Some(Header(version, VerOf(version), spool, stacksize, roi))
  {
  }

  /** Reads line i as line 2: the version, and the ver it implies. */
  method ReadVersionLine(lines: seq<string>, i: nat) returns (version: Option<string>, ver: int)
    ensures version == VersionLine(LineTokens(lines, i))
    ensures version.Some? ==> ver == VerOf(version.value)
  {
    ver := 0;
    if i >= |lines| {
      return None, ver;
    }
    var tokens := Split(lines[i]);
    TokensAt(lines, i);
    if |tokens| < 58 || ParseLong(tokens[4]).None? {
      return None, ver;
    }
    var v := tokens[54] + "." + tokens[55] + "." + tokens[56] + "." + tokens[57];
    if v == VERSION_4_9 {
      ver := 0;
    }
    if v == VERSION_4_13 || v == VERSION_4_15 {
      ver := 4;
    }
    return Some(v), ver;
  }

  /** Reads line i as line 7, the spool line. */
  method ReadSpoolLine(lines: seq<string>, i: nat, ver: int) returns (spool: Option<int>)
    ensures spool == SpoolLine(LineTokens(lines, i), ver)
  {
    if i >= |lines| {
      return None;
    }
    var tokens := Split(lines[i]);
    TokensAt(lines, i);
    if ver == 0 {
      if |tokens| == 0 {
        return None;
      }
      if tokens[0] == "Spooled" {
        return Some(1);
      }
    }
    return Some(0);
  }

  /** Reads line i as the stack-size line. */
  method ReadStackSizeLine(lines: seq<string>, i: nat) returns (stacksize: Option<int>)
    ensures stacksize == StackSizeLine(LineTokens(lines, i))
  {
    if i >= |lines| {
      return None;
    }
    var tokens := Split(lines[i]);
    TokensAt(lines, i);
    if |tokens| < 7 {
      return None;
    }
    return ParseInt(tokens[6]);
  }

  /** Reads line i as the region-of-interest line. */
  method ReadRoiLine(lines: seq<string>, i: nat) returns (roi: Option<Roi>)
    ensures roi == RoiLine(LineTokens(lines, i))
  {
    if i >= |lines| {
      return None;
    }
    var tokens := Split(lines[i]);
    TokensAt(lines, i);
    if |tokens| < 7 {
      return None;
    }
    var l, t, r, b := ParseInt(tokens[1]), ParseInt(tokens[2]), ParseInt(tokens[3]), ParseInt(tokens[4]);
    var xb, yb := ParseInt(tokens[5]), ParseInt(tokens[6]);
    if l.None? || t.None? || r.None? || b.None? || xb.None? || yb.None? {
      return None;
    }
    return Some(Roi(l.value, t.value, r.value, b.value, xb.value, yb.value));
  }

  /**
   * The header loop: its bound 27 + spool + ver grows when line 2 or line 7
   * raises ver or spool, and the lines it reads the stack size and the
   * region from move with it. The initial values are those of the opener's
   * fields: no version, ver and spool 0, stack size 1, a 512 by 512 region.
   */
  method ReadHeader(lines: seq<string>) returns (header: Option<Header>)
    ensures header == HeaderOf(lines)
  {
    var spool, ver := 0, 0;
    var version := "";
    var stacksize := 1;
    var roi := Roi(1, 512, 512, 1, 1, 1);
    var i := 0;
    while i < 27 + spool + ver
      invariant 0 <= i <= 27 + spool + ver
      invariant (ver == 0 || ver == 4) && (spool == 0 || spool == 1)
      invariant i <= 2 ==> ver == 0
      invariant i > 2 ==> VersionLine(LineTokens(lines, 2)) == Some(version) && ver == VerOf(version)
      invariant i <= 7 ==> spool == 0
      invariant i > 7 ==> SpoolLine(LineTokens(lines, 7), ver) == Some(spool)
      invariant i > 24 + spool + ver ==> StackSizeLine(LineTokens(lines, 24 + spool + ver)) == Some(stacksize)
      invariant i > 25 + spool + ver ==> RoiLine(LineTokens(lines, 25 + spool + ver)) == Some(roi)
      decreases 32 - i
    {
      if i == 2 {
        var v, ver' := ReadVersionLine(lines, i);
        if v.None? {
          return None;
        }
        version, ver := v.value, ver';
      }
      if i == 7 {
        var sp := ReadSpoolLine(lines, i, ver);
        if sp.None? {
          return None;
        }
        spool := sp.value;
      }
      if i == 24 + spool + ver {
        var size := ReadStackSizeLine(lines, i);
        if size.None? {
          return None;
        }
        stacksize := size.value;
      }
      if i == 25 + spool + ver {
        var r := ReadRoiLine(lines, i);
        if r.None? {
          return None;
        }
        roi := r.value;
      }
      i := i + 1;
    }
    HeaderOfSome(lines, version, spool, stacksize, roi);
    return Some(Header(version, ver, spool, stacksize, roi));
  }

  /**
   * ver is 4 exactly for versions 4.13 and 4.15 and 0 otherwise; the spool
   * flag is set exactly when ver is 0 and line 7 starts with "Spooled";
   * the stack size sits on line 24 + spool + ver.
   */
  lemma HeaderShape(lines: seq<string>)
    requires HeaderOf(lines).Some?
    ensures var h := HeaderOf(lines).value;
      && (h.ver == 4 <==> h.version == VERSION_4_13 || h.version == VERSION_4_15)
      && (h.ver == 0 || h.ver == 4)
      && 8 <= |lines|
      && (h.spool == 1 <==> h.ver == 0 && |Tokens(lines)[7]| > 0 && Tokens(lines)[7][0] == "Spooled")
      && (h.spool == 0 || h.spool == 1)
      && 25 + h.spool + h.ver < |lines|
      && |Tokens(lines)[24 + h.spool + h.ver]| >= 7
      && ParseInt(Tokens(lines)[24 + h.spool + h.ver][6]) == Some(h.stacksize)
      && InRange(h.stacksize)
  {
    var version := VersionLine(LineTokens(lines, 2)).value;
    var ver := VerOf(version);
    var spool := SpoolLine(LineTokens(lines, 7), ver).value;
    assert StackSizeLine(LineTokens(lines, 24 + spool + ver)).Some?;
    assert RoiLine(LineTokens(lines, 25 + spool + ver)).Some?;
  }

  // ---------------------------------------------------------------------------
  // The data offset: the byte just past the last header line.

  /** How many newline bytes the offset scan skips: ver counts 5 for version 4.15 there. */
  function OffsetLineCount(h: Header): int {
    var ver := if h.version == VERSION_4_15 then 5 else h.ver;
    Wrap(26 + h.stacksize + ver + h.spool)
  }

  /**
   * For a header of version 4.15 that reads, the scan skips one newline more
   * than the ver the header loop used: 5 in place of 4.
   */
  lemma OffsetLineCount415(lines: seq<string>, h: Header)
    requires HeaderOf(lines) == Some(h) && h.version == VERSION_4_15
    ensures h.ver == 4
    ensures OffsetLineCount(h) == Wrap(26 + h.stacksize + (h.ver + 1) + h.spool)
  {
    HeaderShape(lines);
  }

  /** The newlines among the bytes at positions lo to hi - 1. */
  function NewlinesIn(b: seq<byte>, lo: nat, hi: nat): nat
    requires lo <= hi <= |b|
    decreases hi - lo
  {
    if hi == lo then 0 else NewlinesIn(b, lo, hi - 1) + (if b[hi - 1] == NEWLINE then 1 else 0)
  }

  lemma {:induction false} NewlinesSplit(b: seq<byte>, lo: nat, mid: nat, hi: nat)
    requires lo <= mid <= hi <= |b|
    ensures NewlinesIn(b, lo, hi) == NewlinesIn(b, lo, mid) + NewlinesIn(b, mid, hi)
    decreases hi - mid
  {
    if hi > mid {
      NewlinesSplit(b, lo, mid, hi - 1);
    }
  }

  lemma {:induction false} NoNewlines(b: seq<byte>, lo: nat, hi: nat)
    requires lo <= hi <= |b|
    requires forall k :: lo <= k < hi ==> b[k] != NEWLINE
    ensures NewlinesIn(b, lo, hi) == 0
    decreases hi - lo
  {
    if hi > lo {
      NoNewlines(b, lo, hi - 1);
    }
  }

  /** The first newline at or after `from`. */
  function NextNewline(b: seq<byte>, from: nat): (r: Option<nat>)
    requires from <= |b|
    ensures r.Some? ==> from <= r.value < |b| && b[r.value] == NEWLINE
    ensures r.Some? ==> forall k :: from <= k < r.value ==> b[k] != NEWLINE
    ensures r.None? ==> forall k :: from <= k < |b| ==> b[k] != NEWLINE
    decreases |b| - from
  {
    if from == |b| then None
    else if b[from] == NEWLINE then Some(from)
    else NextNewline(b, from + 1)
  }

  /** The position just past the n-th newline from `from` on; None when the bytes end first. */
  function OffsetAfter(b: seq<byte>, from: nat, n: nat): Option<nat>
    requires from <= |b|
    decreases n
  {
    if n == 0 then Some(from)
    else match NextNewline(b, from)
      case None => None
      case Some(p) => OffsetAfter(b, p + 1, n - 1)
  }

  /** The bytes up to the next newline hold one newline; with none ahead, the rest holds none. */
  lemma NextNewlineCount(b: seq<byte>, from: nat)
    requires from <= |b|
    ensures NextNewline(b, from).Some? ==> NewlinesIn(b, from, NextNewline(b, from).value + 1) == 1
    ensures NextNewline(b, from).None? ==> NewlinesIn(b, from, |b|) == 0
  {
    match NextNewline(b, from)
    case None =>
      NoNewlines(b, from, |b|);
    case Some(p) =>
      NoNewlines(b, from, p);
  }

  /** The offset after n newlines lies just past a newline and has exactly n newlines before it. */
  lemma {:induction false} OffsetAfterSome(b: seq<byte>, from: nat, n: nat)
    requires from <= |b| && OffsetAfter(b, from, n).Some?
    ensures var p := OffsetAfter(b, from, n).value;
      && from <= p <= |b| && NewlinesIn(b, from, p) == n && (n > 0 ==> b[p - 1] == NEWLINE)
    decreases n
  {
    if n > 0 {
      var p := NextNewline(b, from).value;
      OffsetAfterSome(b, p + 1, n - 1);
      NextNewlineCount(b, from);
      var q := OffsetAfter(b, p + 1, n - 1).value;
      NewlinesSplit(b, from, p + 1, q);
    }
  }

  /** There is no offset exactly when the bytes hold fewer than n newlines. */
  lemma {:induction false} OffsetAfterNone(b: seq<byte>, from: nat, n: nat)
    requires from <= |b|
    ensures OffsetAfter(b, from, n).None? <==> NewlinesIn(b, from, |b|) < n
    decreases n
  {
    if n > 0 {
      NextNewlineCount(b, from);
      if NextNewline(b, from).Some? {
        var p := NextNewline(b, from).value;
        OffsetAfterNone(b, p + 1, n - 1);
        NewlinesSplit(b, from, p + 1, |b|);
      }
    }
  }

  /**
   * The offset scan: for each of the header lines, skip bytes up to and
   * including the next newline. Where the file ends first the scan would
   * read end-of-file forever; the model answers None there.
   */
  method ScanOffset(b: seq<byte>, lineCount: int) returns (offset: Option<nat>)
    ensures lineCount <= 0 ==> offset == Some(0)
    ensures lineCount > 0 ==> offset == OffsetAfter(b, 0, lineCount)
  {
    var pos := 0;
    var i := 0;
    while i < lineCount
      invariant 0 <= pos <= |b| && 0 <= i
      invariant lineCount <= 0 ==> pos == 0
      invariant lineCount > 0 ==> i <= lineCount && OffsetAfter(b, 0, lineCount) == OffsetAfter(b, pos, lineCount - i)
    {
      ghost var start := pos;
      while pos < |b| && b[pos] != NEWLINE
        invariant start <= pos <= |b|
        invariant NextNewline(b, start) == NextNewline(b, pos)
      {
        pos := pos + 1;
      }
      if pos == |b| {
        return None;
      }
      pos := pos + 1;
      i := i + 1;
    }
    return Some(pos);
  }

  // ---------------------------------------------------------------------------
  // The frame size.

  /**
   * Pixels along one axis: the corner span, less its remainder by the bin,
   * divided by the bin, all in int arithmetic; None for a zero bin, where
   * Java throws ArithmeticException.
   */
  function FrameExtent(low: int, high: int, bin: int): Option<int>
    requires InRange(low) && InRange(high) && InRange(bin)
  {
    if bin == 0 then None
    else
      var size := Wrap(Wrap(high - low) + 1);
      var mod := Rem(size, bin);
      Some(Div(Wrap(size - mod), bin))
  }

  lemma MulMonotone(a: int, c: int, y: nat)
    requires a <= c
    ensures a * y <= c * y
  {
    assert c * y - a * y == (c - a) * y;
  }

  lemma AbsMul(q: int, b: int)
    ensures Abs(q * b) == Abs(q) * Abs(b)
  {
    if q < 0 && b < 0 {
      assert q * b == (-q) * (-b);
    } else if q < 0 {
      assert -(q * b) == (-q) * b;
    } else if b < 0 {
      assert -(q * b) == q * (-b);
    }
  }

  /** A multiple of b divided by b gives the multiplier back. */
  lemma TruncDivExact(q: int, b: int)
    requires b != 0
    ensures TruncDiv(q * b, b) == q
  {
    var m := TruncDiv(q * b, b);
    AbsMul(q, b);
    if Abs(m) < Abs(q) {
      MulMonotone(Abs(m) + 1, Abs(q), Abs(b));
    } else if Abs(m) > Abs(q) {
      MulMonotone(Abs(q) + 1, Abs(m), Abs(b));
    }
    if q != 0 {
      AbsMul(q, b);
      assert (q * b > 0) == ((q > 0) == (b > 0));
    }
  }

  /** A product is positive exactly when its factors are nonzero and share a sign. */
  lemma MulSign(q: int, b: int)
    ensures q * b > 0 <==> (q > 0 && b > 0) || (q < 0 && b < 0)
  {
    if q > 0 && b < 0 {
      MulMonotone(b, 0, q);
    } else if q < 0 && b > 0 {
      MulMonotone(q, 0, b);
    }
  }

  /** The part of an int that a divisor divides exactly is an int too. */
  lemma ExactPartInRange(size: int, bin: int)
    requires InRange(size) && bin != 0
    ensures InRange(TruncDiv(size, bin) * bin)
  {
    var q := TruncDiv(size, bin);
    AbsMul(q, bin);
    MulSign(q, bin);
  }

  /**
   * Taking the remainder off first changes nothing: the extent is Java's
   * quotient of the span by the bin.
   */
  lemma FrameExtentIsQuotient(low: int, high: int, bin: int)
    requires InRange(low) && InRange(high) && InRange(bin) && bin != 0
    ensures FrameExtent(low, high, bin) == Some(Div(Wrap(high - low + 1), bin))
  {
    WrapAdd(high - low, 1);
    var size := Wrap(high - low + 1);
    var q := TruncDiv(size, bin);
    assert size - Rem(size, bin) == q * bin;
    ExactPartInRange(size, bin);
    TruncDivExact(q, bin);
  }

  /** For a positive bin and a span that fits, the extent is the floor of span over bin. */
  lemma FrameExtentFloor(low: int, high: int, bin: int)
    requires InRange(low) && InRange(high) && InRange(bin) && bin > 0
    requires 0 <= high - low + 1 <= MAX_INT
    ensures FrameExtent(low, high, bin).Some?
    ensures var e := FrameExtent(low, high, bin).value;
      e >= 0 && e * bin <= high - low + 1 < (e + 1) * bin
  {
    FrameExtentIsQuotient(low, high, bin);
    var w := high - low + 1;
    var e := NatDiv(w, bin);
    assert TruncDiv(w, bin) == e;
    MulMonotone(1, bin, e);
    assert Div(Wrap(w), bin) == e;
  }

  // ---------------------------------------------------------------------------
  // The frames to read.

  /**
   * The range check as written: a start past the end or past the stack
   * becomes the end, it is made zero-based (with int wrap-around) and raised
   * to 0, and the end is lowered to the stack size.
   */
  function ClampOf(start: int, end: int, stacksize: int): (int, int)
    requires InRange(start) && InRange(end) && InRange(stacksize)
  {
    var first := if start > end || start > stacksize then end else start;
    var first' := Wrap(first - 1);
    var first'' := if first' < 0 then 0 else first';
    var last := if end > stacksize then stacksize else end;
    (first'', last)
  }

  method ClampFrames(start: int, end: int, stacksize: int) returns (startFrame: int, endFrame: int)
    requires InRange(start) && InRange(end) && InRange(stacksize)
    ensures (startFrame, endFrame) == ClampOf(start, end, stacksize)
  {
    startFrame, endFrame := start, end;
    if startFrame > endFrame || startFrame > stacksize {
      startFrame := endFrame;
    }
    startFrame := Wrap(startFrame - 1);
    startFrame := if startFrame < 0 then 0 else startFrame;
    endFrame := if endFrame > stacksize then stacksize else endFrame;
  }

  /** The zero-based start is never negative and the end never past the stack. */
  lemma ClampBounds(start: int, end: int, stacksize: int)
    requires InRange(start) && InRange(end) && InRange(stacksize)
    ensures ClampOf(start, end, stacksize).0 >= 0 && ClampOf(start, end, stacksize).1 <= stacksize
  {
  }

  /** A range inside the stack is only made zero-based: end-start+1 frames are read. */
  lemma ClampKeepsValidRange(start: int, end: int, stacksize: int)
    requires InRange(start) && InRange(end) && InRange(stacksize)
    requires 1 <= start <= end <= stacksize
    ensures ClampOf(start, end, stacksize) == (start - 1, end)
    ensures FrameCount(ClampOf(start, end, stacksize).0, ClampOf(start, end, stacksize).1) == end - start + 1
  {
  }

  /** A start past the end or past the stack is replaced by the end before it is made zero-based. */
  lemma ClampResetsStart(start: int, end: int, stacksize: int)
    requires InRange(start) && InRange(end) && InRange(stacksize)
    requires start > end || start > stacksize
    ensures ClampOf(start, end, stacksize).0 == (if Wrap(end - 1) < 0 then 0 else Wrap(end - 1))
  {
  }

  /** The number of frames the raw path asks for: end less start, in int arithmetic. */
  function FrameCount(startFrame: int, endFrame: int): int {
    Wrap(endFrame - startFrame)
  }

  /**
   * When start and end both lie past the stack, the start is reset to the
   * end and only the end is lowered, so the start ends up after the end and
   * the frame count is negative. A negative end is not raised either.
   */
  lemma ClampCanInvert()
    ensures ClampOf(20, 30, 10) == (29, 10) && FrameCount(29, 10) == -19
    ensures ClampOf(1, -5, 10) == (0, -5) && FrameCount(0, -5) == -5
  {
  }

  /**
   * The range check with the end clamped into the stack first and the start
   * clamped into what is left: a start past the end then starts at the end.
   */
  function ClampRange(start: int, end: int, stacksize: int): (r: (int, int))
    ensures 0 <= r.0 <= r.1
    ensures stacksize >= 0 ==> r.1 <= stacksize
    ensures 1 <= start <= end <= stacksize ==> r == (start - 1, end)
  {
    var last := if end > stacksize then stacksize else end;
    var last' := if last < 0 then 0 else last;
    var first := if start > last' then last' else start;
    var first' := if first < 1 then 0 else first - 1;
    (first', last')
  }

  /** On every range inside the stack the corrected check agrees with the one written. */
  lemma ClampRangeAgrees(start: int, end: int, stacksize: int)
    requires InRange(start) && InRange(end) && InRange(stacksize)
    requires 1 <= start <= end <= stacksize
    ensures ClampRange(start, end, stacksize) == ClampOf(start, end, stacksize)
  {
  }

  // ---------------------------------------------------------------------------
  // Frame offsets: four bytes per pixel, frames one after the other.

  /** The byte offset of frame k as written: every product and the sum in int arithmetic. */
  function FrameOffset(offset: int, k: int, height: int, width: int): int {
    Wrap(offset + Wrap(Wrap(Wrap(k * height) * width) * 4))
  }

  /** The byte offset of frame k, without wrap-around. */
  function ByteOffset(offset: int, k: int, height: int, width: int): int {
    offset + k * height * width * 4
  }

  /** Consecutive frames lie one frame size apart, and later frames further on. */
  lemma ByteOffsetStride(offset: int, k: int, height: int, width: int)
    requires height >= 0 && width >= 0
    ensures ByteOffset(offset, k + 1, height, width) == ByteOffset(offset, k, height, width) + height * width * 4
    ensures ByteOffset(offset, k + 1, height, width) >= ByteOffset(offset, k, height, width)
  {
    assert (k + 1) * height * width * 4 == k * height * width * 4 + height * width * 4;
  }

  /** The offset as written is the true offset wrapped into the int range. */
  lemma FrameOffsetWraps(offset: int, k: int, height: int, width: int)
    ensures FrameOffset(offset, k, height, width) == Wrap(ByteOffset(offset, k, height, width))
  {
    WrapMul(k * height, width);
    WrapMul(Wrap(k * height) * width, 4);
    WrapMul(k * height * width, 4);
    assert Wrap(Wrap(Wrap(k * height) * width) * 4) == Wrap(k * height * width * 4) by {
      WrapMul(Wrap(k * height) * width, 4);
      assert Wrap(Wrap(k * height) * width) == Wrap(k * height * width);
      WrapMul(Wrap(k * height * width) * 4 - Wrap(k * height * width) * 4 + k * height * width, 4);
    }
    WrapAdd(k * height * width * 4, offset);
  }

  /** The two agree whenever the true offset fits in an int. */
  lemma FrameOffsetAgrees(offset: int, k: int, height: int, width: int)
    requires InRange(ByteOffset(offset, k, height, width))
    ensures FrameOffset(offset, k, height, width) == ByteOffset(offset, k, height, width)
  {
    FrameOffsetWraps(offset, k, height, width);
  }

  /** Frame 2048 of 512 by 512 pixels starts 2^31 bytes in, which wraps to a negative offset. */
  lemma FrameOffsetOverflows()
    ensures ByteOffset(0, 2048, 512, 512) == 0x8000_0000
    ensures FrameOffset(0, 2048, 512, 512) == MIN_INT
  {
  }

  /** One offset per frame from the start frame on, as the 16-bit path sets them in order. */
  method SixteenBitOffsets(offset: int, startFrame: int, endFrame: int, height: int, width: int) returns (offsets: seq<int>)
    ensures |offsets| == (if FrameCount(startFrame, endFrame) > 0 then FrameCount(startFrame, endFrame) else 0)
    ensures forall cnt :: 0 <= cnt < |offsets| ==>
      offsets[cnt] == FrameOffset(offset, Wrap(startFrame + cnt), height, width)
      && offsets[cnt] == Wrap(ByteOffset(offset, Wrap(startFrame + cnt), height, width))
  {
    offsets := [];
    var cnt := 0;
    while cnt < FrameCount(startFrame, endFrame)
      invariant 0 <= cnt == |offsets|
      invariant cnt <= FrameCount(startFrame, endFrame) || cnt == 0
      invariant forall c :: 0 <= c < cnt ==>
        offsets[c] == FrameOffset(offset, Wrap(startFrame + c), height, width)
        && offsets[c] == Wrap(ByteOffset(offset, Wrap(startFrame + c), height, width))
    {
      FrameOffsetWraps(offset, Wrap(startFrame + cnt), height, width);
      offsets := offsets + [FrameOffset(offset, Wrap(startFrame + cnt), height, width)];
      cnt := cnt + 1;
    }
  }
}
