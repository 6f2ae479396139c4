/** What the two cursor-based scanners of common/lib/io/format/obj.cpp read out of an
    OBJ text: the records of one coordinate stream (`v`, `vt` or `vn` lines) and the
    face-vertex triples of the `f` lines. These functions specify the iterators of
    module Obj, which compute the same records with loops. */
module ObjScan {
  import opened Arith

  /** `std::string::npos`. */
  const NPOS: nat := 0xFFFF_FFFF_FFFF_FFFF

  /** A `std::string`: never as long as `npos`. */
  type Text = s: string | |s| < NPOS

  /** A coordinate as the scanner leaves it: the 0.0f a slot starts with, the text of a
      numeric token (the model does not convert it with `atof`), or `1 - v`. */
  datatype Value = Zero | Parsed(token: string) | OneMinus(of: Value)

  predicate IsDigit(c: char) { '0' <= c <= '9' }

  /** The character classes the scanners run over. */
  datatype CharClass =
    | Gap         // skipped before a coordinate: neither a digit, nor '-', nor line end
    | NumberChar  // continues a coordinate token: a digit or '.'
    | IndexGap    // skipped before an index: neither a digit nor line end
    | Digit

  predicate InClass(c: char, cls: CharClass) {
    match cls
    case Gap => !IsDigit(c) && c != '-' && c != '\n'
    case NumberChar => IsDigit(c) || c == '.'
    case IndexGap => !IsDigit(c) && c != '\n'
    case Digit => IsDigit(c)
  }

  /** The first position at or after `pos` whose character is not in `cls` (or the
      end of the text). */
  function Span(s: string, pos: nat, cls: CharClass): (r: nat)
    requires pos <= |s|
    ensures pos <= r <= |s|
    ensures r < |s| ==> !InClass(s[r], cls)
    decreases |s| - pos
  {
    if pos == |s| || !InClass(s[pos], cls) then pos else Span(s, pos + 1, cls)
  }

  /** Every character that `Span` runs over is in the class: its result is the
      first position outside it. */
  lemma {:induction false} SpanKeeps(s: string, pos: nat, cls: CharClass, k: nat)
    requires pos <= |s| && pos <= k < Span(s, pos, cls)
    ensures InClass(s[k], cls)
    decreases |s| - pos
  {
    if k > pos {
      SpanKeeps(s, pos + 1, cls, k);
    }
  }

  predicate OccursAt(s: string, d: string, i: nat) {
    i + |d| <= |s| && s[i..i + |d|] == d
  }

  /** `s.find(d, from)`: the first occurrence of `d` at or after `from`, or `npos`. */
  function Find(s: Text, d: string, from: nat): (r: nat)
    requires |d| > 0
    ensures r == NPOS || (from <= r && OccursAt(s, d, r))
    ensures forall k | from <= k < r && k < |s| :: !OccursAt(s, d, k)
    decreases |s| - from
  {
    if from + |d| > |s| then NPOS
    else if s[from..from + |d|] == d then from
    else Find(s, d, from + 1)
  }

  /** Every occurrence of the marker `d` starts the text or follows a blank or a line
      break. The marker searches of the source loop forever on any other occurrence:
      `find` returns the rejected position again and again. */
  ghost predicate LineLeadingMarkers(s: string, d: string) {
    forall i | 0 < i && OccursAt(s, d, i) :: s[i - 1] == ' ' || s[i - 1] == '\n'
  }

  /** A numeric token: a digit or '-', then digits and '.' only. */
  predicate IsNumberToken(t: string) {
    |t| > 0 && (IsDigit(t[0]) || t[0] == '-') && forall k | 1 <= k < |t| :: InClass(t[k], NumberChar)
  }

  /** A reference tokenizer: the numeric tokens of the line from `pos` on, each found by
      skipping gap characters, up to the end of the line. */
  function LineTokens(s: string, pos: nat): seq<string>
    requires pos <= |s|
    decreases |s| - pos
  {
    var a := Span(s, pos, Gap);
    if a == |s| || s[a] == '\n' then []
    else
      var b := Span(s, a + 1, NumberChar);
      [s[a..b]] + LineTokens(s, b)
  }

  lemma {:induction false} LineTokensAreNumbers(s: string, pos: nat, i: nat)
    requires pos <= |s|
    requires i < |LineTokens(s, pos)|
    ensures IsNumberToken(LineTokens(s, pos)[i])
    decreases |s| - pos
  {
    var a := Span(s, pos, Gap);
    var b := Span(s, a + 1, NumberChar);
    if i > 0 {
      LineTokensAreNumbers(s, b, i - 1);
    } else {
      var t := s[a..b];
      assert t[0] == s[a] && !InClass(s[a], Gap) && s[a] != '\n';
      forall k | 1 <= k < |t| ensures InClass(t[k], NumberChar) {
        assert t[k] == s[a + k];
        SpanKeeps(s, a + 1, NumberChar, a + k);
      }
    }
  }

  // ---------------------------------------------------------------------------------
  // OBJVertexIterator

  /** Where `findElement` leaves the cursor, and the record (three slots, or none). */
  datatype VertexScan = VertexScan(pos: nat, value: seq<Value>)

  /** `OBJVertexIterator::findElement(start)`: find the next marker, then read the
      record after it; `prev` is the third slot before the call. */
  function VertexFind(s: Text, d: string, start: nat, prev: Value): (r: VertexScan)
    requires |d| >= 2 && LineLeadingMarkers(s, d)
    ensures r.value == [] || (|r.value| == 3 && start + 2 <= r.pos <= |s|)
  {
    var m := Find(s, d, start);
    if m == NPOS then VertexScan(NPOS, []) else ReadVertexRecord(s, m + 2, prev)
  }

  /** Reads two numbers and an optional third from `pos` on, none past the end of the
      line; the third slot keeps `prev` when the line has only two. */
  function ReadVertexRecord(s: Text, pos: nat, prev: Value): (r: VertexScan)
    requires pos <= |s|
    ensures r.value == [] || (|r.value| == 3 && pos <= r.pos <= |s|)
  {
    var a := Span(s, pos, Gap);
    if a == |s| || s[a] == '\n' then VertexScan(a, [])
    else ReadVertexSecond(s, a, Span(s, a + 1, NumberChar), prev)
  }

  /** The rest of a record once its first number `s[a..b]` is read. */
  function ReadVertexSecond(s: Text, a: nat, b: nat, prev: Value): (r: VertexScan)
    requires a < b <= |s|
    ensures r.value == [] || (|r.value| == 3 && b <= r.pos <= |s|)
  {
    var c := Span(s, b, Gap);
    if c == |s| || s[c] == '\n' then VertexScan(c, [])
    else
      var e := Span(s, c + 1, NumberChar);
      ReadVertexThird(s, Parsed(s[a..b]), Parsed(s[c..e]), e, prev)
  }

  /** The optional third number, from `e` on, after the first two. */
  function ReadVertexThird(s: Text, first: Value, second: Value, e: nat, prev: Value): (r: VertexScan)
    requires e <= |s|
    ensures |r.value| == 3 && e <= r.pos <= |s|
  {
    var f := Span(s, e, Gap);
    if f == |s| || s[f] == '\n' then VertexScan(f, [first, second, prev])
    else
      var g := Span(s, f + 1, NumberChar);
      VertexScan(g, [first, second, Parsed(s[f..g])])
  }

  /** A record is the first two or three numeric tokens of the line: none if the line
      holds fewer than two, and the third slot keeps `prev` if it holds exactly two. */
  lemma VertexRecordIsLineTokens(s: Text, pos: nat, prev: Value)
    requires pos <= |s|
    ensures var t := LineTokens(s, pos);
            var r := ReadVertexRecord(s, pos, prev);
            (r.value == [] <==> |t| < 2) &&
            (|t| >= 2 ==> r.value == [Parsed(t[0]), Parsed(t[1]), if |t| >= 3 then Parsed(t[2]) else prev])
  {
    var a := Span(s, pos, Gap);
    if a == |s| || s[a] == '\n' {
      assert LineTokens(s, pos) == [];
    } else {
      var b := Span(s, a + 1, NumberChar);
      assert LineTokens(s, pos) == [s[a..b]] + LineTokens(s, b);
      VertexSecondIsLineTokens(s, a, b, prev);
    }
  }

  lemma VertexSecondIsLineTokens(s: Text, a: nat, b: nat, prev: Value)
    requires a < b <= |s|
    ensures var t := LineTokens(s, b);
            var r := ReadVertexSecond(s, a, b, prev);
            (r.value == [] <==> |t| < 1) &&
            (|t| >= 1 ==> r.value == [Parsed(s[a..b]), Parsed(t[0]), if |t| >= 2 then Parsed(t[1]) else prev])
  {
    var c := Span(s, b, Gap);
    if c == |s| || s[c] == '\n' {
      assert LineTokens(s, b) == [];
    } else {
      var e := Span(s, c + 1, NumberChar);
      assert LineTokens(s, b) == [s[c..e]] + LineTokens(s, e);
      VertexThirdIsLineTokens(s, Parsed(s[a..b]), Parsed(s[c..e]), e, prev);
    }
  }

  lemma VertexThirdIsLineTokens(s: Text, first: Value, second: Value, e: nat, prev: Value)
    requires e <= |s|
    ensures var t := LineTokens(s, e);
            ReadVertexThird(s, first, second, e, prev).value == [first, second, if |t| >= 1 then Parsed(t[0]) else prev]
  {
    var f := Span(s, e, Gap);
    if f == |s| || s[f] == '\n' {
      assert LineTokens(s, e) == [];
    } else {
      var g := Span(s, f + 1, NumberChar);
      assert LineTokens(s, e) == [s[f..g]] + LineTokens(s, g);
    }
  }

  /** A record is recognised only at the first occurrence of the marker at or after
      `start`, and that occurrence starts the text or follows a blank or line break. */
  lemma VertexRecordAtMarker(s: Text, d: string, start: nat, prev: Value)
    requires |d| >= 2 && LineLeadingMarkers(s, d)
    requires VertexFind(s, d, start, prev).value != []
    ensures var m := Find(s, d, start);
            m != NPOS && start <= m && OccursAt(s, d, m) && (m == 0 || s[m - 1] == ' ' || s[m - 1] == '\n') &&
            (forall k | start <= k < m :: !OccursAt(s, d, k)) &&
            VertexFind(s, d, start, prev) == ReadVertexRecord(s, m + 2, prev)
  {
  }

  /** The records of a coordinate stream from `start` on, up to (not including) the
      first empty record: the consumer loop stops there, so every later record is
      dropped. */
  function VertexStreamFrom(s: Text, d: string, start: nat, prev: Value): (records: seq<seq<Value>>)
    requires |d| >= 2 && LineLeadingMarkers(s, d)
    requires start <= |s| + 1
    ensures forall i | 0 <= i < |records| :: |records[i]| == 3
    decreases |s| + 2 - start
  {
    var r := VertexFind(s, d, start, prev);
    if r.value == [] then []
    else [r.value] + VertexStreamFrom(s, d, NextVertexStart(r.pos), r.value[2])
  }

  /** `next()` resumes one character past the cursor (`currentPos ? currentPos + 1 :
      currentPos`). */
  function NextVertexStart(pos: nat): nat {
    if pos != 0 then pos + 1 else pos
  }

  /** The stream of the records of `marker` lines (`v`, `vt` or `vn`), as the
      iterator built on `marker + " "` produces them from the start of the text. */
  function VertexStream(s: Text, marker: string): seq<seq<Value>>
    requires |marker| >= 1 && LineLeadingMarkers(s, marker + " ")
  {
    VertexStreamFrom(s, marker + " ", 0, Zero)
  }

  /** The values the consumer loop pushes: the first `coordSize` slots of each record,
      one record after the other. */
  function Coordinates<T>(records: seq<seq<T>>, coordSize: nat): (data: seq<T>)
    requires forall i | 0 <= i < |records| :: |records[i]| >= coordSize
  {
    if records == [] then [] else records[0][..coordSize] + Coordinates(records[1..], coordSize)
  }

  lemma {:induction false} CoordinatesAt<T>(records: seq<seq<T>>, coordSize: nat, i: nat, j: nat)
    requires forall k | 0 <= k < |records| :: |records[k]| >= coordSize
    requires i < |records| && j < coordSize
    ensures var data := Coordinates(records, coordSize);
            i * coordSize + j < |data| && data[i * coordSize + j] == records[i][j]
    decreases |records|
  {
    CoordinatesLength(records, coordSize);
    MulIndexBound(i, |records|, coordSize, j);
    if i > 0 {
      CoordinatesAt(records[1..], coordSize, i - 1, j);
      var rest := Coordinates(records[1..], coordSize);
      assert Coordinates(records, coordSize) == records[0][..coordSize] + rest;
      assert i * coordSize + j == coordSize + ((i - 1) * coordSize + j);
      assert rest[(i - 1) * coordSize + j] == records[i][j];
    }
  }

  lemma CoordinatesStep<T>(data: seq<T>, records: seq<seq<T>>, coordSize: nat)
    requires forall k | 0 <= k < |records| :: |records[k]| >= coordSize
    requires records != []
    ensures data + Coordinates(records, coordSize) == (data + records[0][..coordSize]) + Coordinates(records[1..], coordSize)
  {
  }

  lemma {:induction false} CoordinatesLength<T>(records: seq<seq<T>>, coordSize: nat)
    requires forall k | 0 <= k < |records| :: |records[k]| >= coordSize
    ensures |Coordinates(records, coordSize)| == coordSize * |records|
    decreases |records|
  {
    if records != [] {
      CoordinatesLength(records[1..], coordSize);
    }
  }

  // ---------------------------------------------------------------------------------
  // OBJIndexIterator

  /** `atoi` on the run of digits `s[lo..hi]`. */
  function DigitsValue(s: string, lo: nat, hi: nat): nat
    requires lo <= hi <= |s|
    decreases hi
  {
    if hi == lo then 0
    else DigitsValue(s, lo, hi - 1) * 10 + (s[hi - 1] as int - '0' as int) % 10
  }

  /** Where `findElement` leaves the cursor and the `lineParsing` flag, and the record:
      a position/texcoord/normal triple (-1 for a missing texcoord or normal) or none. */
  datatype IndexScan = IndexScan(pos: nat, lineParsing: bool, value: seq<int>)

  /** The position after the 'f' of the next face marker, or `npos`. */
  function FaceStart(s: Text, start: nat): nat {
    var m := Find(s, "f ", start);
    if m == NPOS then NPOS else m + 1
  }

  /** `OBJIndexIterator::findElement(start)`: unless `lineParsing` says the cursor
      already stands on the next face-vertex of the current line, find the next `f `
      marker; then skip to the first digit of the line and read `p/t/n` there. */
  function IndexFind(s: Text, start: nat, lineParsing: bool): (r: IndexScan)
    requires LineLeadingMarkers(s, "f ")
    requires start <= |s|
    ensures r.value == [] ||
            (|r.value| == 3 && start < r.pos <= |s| &&
             r.value[0] >= 0 && r.value[1] >= -1 && r.value[2] >= -1)
  {
    var p := if lineParsing then start else FaceStart(s, start);
    if p == NPOS || p == |s| then IndexScan(p, lineParsing, [])
    else
      var a := Span(s, p, IndexGap);
      if a == |s| || s[a] == '\n' then IndexScan(a, lineParsing, [])
      else ReadFaceVertex(s, a, lineParsing)
  }

  /** Reads the face-vertex whose first digit is at `a`. Failing, the record is empty
      and `lineParsing` is left as it was. */
  function ReadFaceVertex(s: Text, a: nat, lineParsing: bool): (r: IndexScan)
    requires a < |s| && IsDigit(s[a])
    ensures r.value == [] ||
            (|r.value| == 3 && a < r.pos <= |s| &&
             r.value[0] >= 0 && r.value[1] >= -1 && r.value[2] >= -1)
  {
    var b := Span(s, a + 1, Digit);
    // the cursor steps over the character after the digits, which must be '/'
    if b + 1 >= |s| || s[b] != '/' then IndexScan(b + 1, lineParsing, [])
    else ReadTexcoordIndex(s, DigitsValue(s, a, b), b + 1, lineParsing)
  }

  /** The rest of a face-vertex after its position index `pv` and the first '/'. */
  function ReadTexcoordIndex(s: Text, pv: int, c: nat, lineParsing: bool): (r: IndexScan)
    requires c < |s|
    ensures r.value == [] ||
            (|r.value| == 3 && c < r.pos <= |s| &&
             r.value[0] == pv && r.value[1] >= -1 && r.value[2] >= -1)
  {
    // a texcoord index, or a second '/' right away; any other character fails the
    // check below, so the value given for it here is never used
    var g := if IsDigit(s[c]) then Span(s, c + 1, Digit) else c;
    var tv := if IsDigit(s[c]) then DigitsValue(s, c, g) as int else -1;
    if g >= |s| || s[g] != '/' then IndexScan(g + 1, lineParsing, [])
    else ReadNormalIndex(s, pv, tv, g + 1)
  }

  /** The optional normal index after the second '/', and the gap up to the next
      face-vertex of the line or its end. */
  function ReadNormalIndex(s: Text, pv: int, tv: int, h: nat): (r: IndexScan)
    requires h <= |s|
    ensures |r.value| == 3 && h <= r.pos <= |s| &&
            r.value[0] == pv && r.value[1] == tv && r.value[2] >= -1
  {
    var k := if h == |s| || !IsDigit(s[h]) then h else Span(s, h + 1, Digit);
    var nv := if h == |s| || !IsDigit(s[h]) then -1 else DigitsValue(s, h, k) as int;
    var q := Span(s, k, IndexGap);
    IndexScan(q, q != |s| && s[q] != '\n', [pv, tv, nv])
  }

  /** Every face-vertex read is digits, '/', optional digits, '/', optional digits: a
      texcoord of -1 means the two '/' are adjacent (`p//n`), a normal of -1 means no
      digit follows the second '/'. It lies after `start` on one line, and afterwards
      `lineParsing` holds exactly when a digit follows on that line: the next
      face-vertex of the line is read next. */
  lemma IndexRecordShape(s: Text, start: nat, lineParsing: bool) returns (a: nat, b: nat, g: nat)
    requires LineLeadingMarkers(s, "f ") && start <= |s|
    requires IndexFind(s, start, lineParsing).value != []
    ensures var r := IndexFind(s, start, lineParsing);
            start <= a < b < g < r.pos && IsDigit(s[a]) && s[b] == '/' && s[g] == '/' &&
            (forall k | a < k < b :: IsDigit(s[k])) &&
            (forall k | b < k < g :: IsDigit(s[k])) &&
            (r.value[1] == -1 <==> g == b + 1) &&
            (r.value[2] == -1 <==> (g + 1 == |s| || !IsDigit(s[g + 1]))) &&
            (forall k | a <= k < r.pos :: s[k] != '\n')
    ensures var r := IndexFind(s, start, lineParsing);
            r.lineParsing <==> (r.pos < |s| && IsDigit(s[r.pos]))
  {
    var p := if lineParsing then start else FaceStart(s, start);
    if !lineParsing {
      assert p == Find(s, "f ", start) + 1;
    }
    a := Span(s, p, IndexGap);
    assert IndexFind(s, start, lineParsing) == ReadFaceVertex(s, a, lineParsing);
    b, g := FaceVertexShape(s, a, lineParsing);
  }

  lemma FaceVertexShape(s: Text, a: nat, lineParsing: bool) returns (b: nat, g: nat)
    requires a < |s| && IsDigit(s[a])
    requires ReadFaceVertex(s, a, lineParsing).value != []
    ensures a < b < g < ReadFaceVertex(s, a, lineParsing).pos && s[b] == '/' && s[g] == '/'
    ensures forall k | a < k < b :: IsDigit(s[k])
    ensures forall k | b < k < g :: IsDigit(s[k])
    ensures ReadFaceVertex(s, a, lineParsing).value[1] == -1 <==> g == b + 1
    ensures ReadFaceVertex(s, a, lineParsing).value[2] == -1 <==> (g + 1 == |s| || !IsDigit(s[g + 1]))
    ensures forall k | a <= k < ReadFaceVertex(s, a, lineParsing).pos :: s[k] != '\n'
    ensures var r := ReadFaceVertex(s, a, lineParsing);
            r.lineParsing <==> (r.pos < |s| && IsDigit(s[r.pos]))
  {
    var tv;
    b, g, tv := FaceVertexUnfolds(s, a, lineParsing);
    var k := NormalIndexShape(s, DigitsValue(s, a, b), tv, g + 1);
    FaceVertexOnOneLine(s, a, b, g, k, ReadNormalIndex(s, DigitsValue(s, a, b), tv, g + 1).pos);
  }

  /** A face-vertex that is read is its position digits up to `b`, a '/', optional
      texcoord digits up to `g`, a second '/', and what `ReadNormalIndex` reads there. */
  lemma FaceVertexUnfolds(s: Text, a: nat, lineParsing: bool) returns (b: nat, g: nat, tv: int)
    requires a < |s| && IsDigit(s[a])
    requires ReadFaceVertex(s, a, lineParsing).value != []
    ensures b == Span(s, a + 1, Digit) && b + 1 < |s| && s[b] == '/'
    ensures g == (if IsDigit(s[b + 1]) then Span(s, b + 2, Digit) else b + 1) && g < |s| && s[g] == '/'
    ensures tv == -1 <==> g == b + 1
    ensures ReadFaceVertex(s, a, lineParsing) == ReadNormalIndex(s, DigitsValue(s, a, b), tv, g + 1)
  {
    b := Span(s, a + 1, Digit);
    var c := b + 1;
    g := if IsDigit(s[c]) then Span(s, c + 1, Digit) else c;
    tv := if IsDigit(s[c]) then DigitsValue(s, c, g) as int else -1;
  }

  /** The normal index is -1 exactly when no digit follows the second '/'; `k` is
      where its digits end. */
  lemma NormalIndexShape(s: Text, pv: int, tv: int, h: nat) returns (k: nat)
    requires h <= |s|
    ensures var r := ReadNormalIndex(s, pv, tv, h);
            k == (if h == |s| || !IsDigit(s[h]) then h else Span(s, h + 1, Digit)) &&
            r.pos == Span(s, k, IndexGap) &&
            (r.value[2] == -1 <==> (h == |s| || !IsDigit(s[h]))) &&
            (r.lineParsing <==> (r.pos < |s| && IsDigit(s[r.pos])))
  {
    k := if h == |s| || !IsDigit(s[h]) then h else Span(s, h + 1, Digit);
  }

  /** The characters of one face-vertex `p/t/n` and the gap after it: digits between
      `a` and the first '/', digits between the two '/', and no line break anywhere. */
  lemma FaceVertexOnOneLine(s: string, a: nat, b: nat, g: nat, k: nat, q: nat)
    requires a < |s| && IsDigit(s[a]) && b == Span(s, a + 1, Digit)
    requires b + 1 < |s| && s[b] == '/'
    requires g == if IsDigit(s[b + 1]) then Span(s, b + 2, Digit) else b + 1
    requires g < |s| && s[g] == '/'
    requires k == if g + 1 == |s| || !IsDigit(s[g + 1]) then g + 1 else Span(s, g + 2, Digit)
    requires q == Span(s, k, IndexGap)
    ensures forall j | a < j < b :: IsDigit(s[j])
    ensures forall j | b < j < g :: IsDigit(s[j])
    ensures forall j | a <= j < q :: s[j] != '\n'
  {
    forall j | a < j < b ensures IsDigit(s[j]) {
      SpanKeeps(s, a + 1, Digit, j);
    }
    forall j | b < j < g ensures IsDigit(s[j]) {
      if j > b + 1 { SpanKeeps(s, b + 2, Digit, j); }
    }
    forall j | a <= j < q ensures s[j] != '\n' {
      if j <= b + 1 || j == g || j == g + 1 { }
      else if j < g { SpanKeeps(s, b + 2, Digit, j); }
      else if j < k { SpanKeeps(s, g + 2, Digit, j); }
      else { SpanKeeps(s, k, IndexGap, j); }
    }
  }

  /** The face-vertex triples from `start` on, up to the first empty record. */
  function IndexStreamFrom(s: Text, start: nat, lineParsing: bool): (records: seq<seq<int>>)
    requires LineLeadingMarkers(s, "f ")
    requires start <= |s|
    ensures forall i | 0 <= i < |records| :: |records[i]| == 3
    decreases |s| - start
  {
    var r := IndexFind(s, start, lineParsing);
    if r.value == [] then [] else [r.value] + IndexStreamFrom(s, r.pos, r.lineParsing)
  }

  /** The face-vertex stream of a whole text, in order, every face-vertex of every `f`
      line (no triangulation by face). */
  function IndexStream(s: Text): seq<seq<int>>
    requires LineLeadingMarkers(s, "f ")
  {
    IndexStreamFrom(s, 0, false)
  }

  /** The UV flip `v' = 1 - v`, read over the reals through any conversion `atof` of
      the tokens, undoes itself. */
  function ValueOf(v: Value, atof: string -> real): real {
    match v
    case Zero => 0.0
    case Parsed(t) => atof(t)
    case OneMinus(w) => 1.0 - ValueOf(w, atof)
  }

  lemma FlipIsInvolution(v: Value, atof: string -> real)
    ensures ValueOf(OneMinus(OneMinus(v)), atof) == ValueOf(v, atof)
    ensures ValueOf(OneMinus(v), atof) == 1.0 - ValueOf(v, atof)
  {
  }
}
