/**
 The buffer that carries a parse result from Rust to Go: five string lists, each a little-endian
 32-bit count followed by length-prefixed strings.  The encoder is encode in
 language/js/crates/js-parser/src/lib.rs, the decoder byteReader and decodeParseResult in
 language/js/parser/parser.go.
 */
module ParseCodec {
  import opened Wrappers

  newtype Byte = x: int | 0 <= x < 256
  type Bytes = seq<Byte>

  const TWO32 := 0x1_0000_0000

  datatype ParseResult = ParseResult(
    imports: seq<Bytes>, jsxImports: seq<Bytes>, urlImports: seq<Bytes>, modules: seq<Bytes>, errors: seq<Bytes>)

  /******* The format *******/

  /** The four little-endian bytes of a length cast to 32 bits, which drops higher bits. */
  function LittleEndian(n: nat): (b: Bytes)
    ensures |b| == 4
  {
    var m := n % TWO32;
    [(m % 256) as Byte, (m / 256 % 256) as Byte, (m / 256 / 256 % 256) as Byte, (m / 256 / 256 / 256 % 256) as Byte]
  }

  function FormatString(s: Bytes): Bytes {
    LittleEndian(|s|) + s
  }

  function FormatStrings(list: seq<Bytes>): Bytes {
    if list == [] then [] else FormatStrings(list[..|list| - 1]) + FormatString(list[|list| - 1])
  }

  function FormatList(list: seq<Bytes>): Bytes {
    LittleEndian(|list|) + FormatStrings(list)
  }

  function Format(r: ParseResult): Bytes {
    FormatList(r.imports) + FormatList(r.jsxImports) + FormatList(r.urlImports) + FormatList(r.modules) + FormatList(r.errors)
  }

  ghost predicate ListFits(list: seq<Bytes>) {
    |list| < TWO32 && StringsFit(list)
  }

  ghost predicate StringsFit(list: seq<Bytes>) {
    forall i :: 0 <= i < |list| ==> |list[i]| < TWO32
  }

  /** All counts and lengths fit into 32 bits. */
  ghost predicate Fits(r: ParseResult) {
    ListFits(r.imports) && ListFits(r.jsxImports) && ListFits(r.urlImports) && ListFits(r.modules) && ListFits(r.errors)
  }

  /******* The encoder *******/

  method Encode(r: ParseResult) returns (buf: Bytes)
    ensures buf == Format(r)
  {
    buf := [];
    var lists := [r.imports, r.jsxImports, r.urlImports, r.modules, r.errors];
    for i := 0 to |lists|
      invariant buf == FormatLists(lists[..i])
    {
      buf := EncodeList(buf, lists[i]);
      assert lists[..i + 1][..i] == lists[..i];
    }
    FormatOfFive(r);
  }

  method EncodeList(prefix: Bytes, list: seq<Bytes>) returns (buf: Bytes)
    ensures buf == prefix + FormatList(list)
  {
    buf := prefix + LittleEndian(|list|);
    for j := 0 to |list|
      invariant buf == prefix + LittleEndian(|list|) + FormatStrings(list[..j])
    {
      buf := buf + LittleEndian(|list[j]|);
      buf := buf + list[j];
      assert list[..j + 1] == list[..j] + [list[j]];
      FormatStringsSnoc(list[..j], list[j]);
    }
    assert list[..|list|] == list;
  }

  function FormatLists(lists: seq<seq<Bytes>>): Bytes {
    if lists == [] then [] else FormatLists(lists[..|lists| - 1]) + FormatList(lists[|lists| - 1])
  }

  lemma FormatOfFive(r: ParseResult)
    ensures var lists := [r.imports, r.jsxImports, r.urlImports, r.modules, r.errors];
      lists[..5] == lists && FormatLists(lists) == Format(r)
  {
    var l: seq<seq<Bytes>> := [r.imports, r.jsxImports, r.urlImports, r.modules, r.errors];
    assert l[..4][..3] == l[..3] && l[..3][..2] == l[..2] && l[..2][..1] == l[..1];
    assert FormatLists(l[..1]) == FormatList(r.imports);
    assert FormatLists(l[..2]) == FormatLists(l[..1]) + FormatList(r.jsxImports);
    assert FormatLists(l[..3]) == FormatLists(l[..2]) + FormatList(r.urlImports);
    assert FormatLists(l[..4]) == FormatLists(l[..3]) + FormatList(r.modules);
  }

  /******* The decoder *******/

  function Assemble(b0: Byte, b1: Byte, b2: Byte, b3: Byte): (n: nat)
    ensures n < TWO32
  {
    b0 as int + 256 * (b1 as int + 256 * (b2 as int + 256 * b3 as int))
  }

  function U32At(b: Bytes, off: nat): (n: nat)
    requires off + 4 <= |b|
    ensures n < TWO32
  {
    Assemble(b[off], b[off + 1], b[off + 2], b[off + 3])
  }

  /** The strings read, and the offset after them; None when the buffer ends too early. */
  function ReadStrings(b: Bytes, off: nat, count: nat): (r: Option<(seq<Bytes>, nat)>)
    ensures r.Some? ==> off <= r.value.1 <= |b| || (count == 0 && r.value.1 == off)
  {
    if count == 0 then Some(([], off))
    else
      match ReadStrings(b, off, count - 1)
      case None => None
      case Some((list, at)) =>
        if at + 4 > |b| then None
        else
          var n := U32At(b, at);
          if at + 4 + n > |b| then None else Some((list + [b[at + 4..at + 4 + n]], at + 4 + n))
  }

  function ReadList(b: Bytes, off: nat): Option<(seq<Bytes>, nat)> {
    if off + 4 > |b| then None else ReadStrings(b, off + 4, U32At(b, off))
  }

  /** Some r exactly when the decoder accepts b, with r as its result. */
  function Parse(b: Bytes): Option<ParseResult> {
    match ReadList(b, 0)
    case None => None
    case Some((imports, o1)) =>
      match ReadList(b, o1)
      case None => None
      case Some((jsxImports, o2)) =>
        match ReadList(b, o2)
        case None => None
        case Some((urlImports, o3)) =>
          match ReadList(b, o3)
          case None => None
          case Some((modules, o4)) =>
            match ReadList(b, o4)
            case None => None
            case Some((errors, o5)) =>
              if o5 != |b| then None else Some(ParseResult(imports, jsxImports, urlImports, modules, errors))
  }

  class ByteReader {
    const b: Bytes
    var off: nat

    constructor (b: Bytes)
      ensures this.b == b && off == 0
    {
      this.b := b;
      off := 0;
    }

    method U32() returns (r: Result<nat>)
      modifies this
      ensures r.Err? <==> old(off) + 4 > |b|
      ensures r.Err? ==> off == old(off)
      ensures r.Ok? ==> r.value == U32At(b, old(off)) && off == old(off) + 4
    {
      if off + 4 > |b| {
        return Err;
      }
      r := Ok(Assemble(b[off], b[off + 1], b[off + 2], b[off + 3]));
      off := off + 4;
    }

    method StringList() returns (r: Result<seq<Bytes>>)
      modifies this
      ensures r.Err? <==> ReadList(b, old(off)).None?
      ensures r.Ok? ==> ReadList(b, old(off)) == Some((r.value, off))
    {
      var count := U32();
      if count.Err? {
        return Err;
      }
      if count.value == 0 {
        return Ok([]);
      }
      ghost var start := off;
      var out := [];
      var i := 0;
      while i < count.value
        invariant i <= count.value && start == old(off) + 4
        invariant ReadStrings(b, start, i) == Some((out, off))
      {
        var n := U32();
        if n.Err? {
          ReadStringsStops(b, start, i, count.value);
          return Err;
        }
        if off + n.value > |b| {
          ReadStringsStops(b, start, i, count.value);
          return Err;
        }
        out := out + [b[off..off + n.value]];
        off := off + n.value;
        i := i + 1;
      }
      return Ok(out);
    }
  }

  lemma {:induction false} ReadStringsStops(b: Bytes, off: nat, i: nat, count: nat)
    requires i < count && ReadStrings(b, off, i + 1).None?
    ensures ReadStrings(b, off, count).None?
    decreases count
  {
    if i + 1 < count {
      ReadStringsStops(b, off, i, count - 1);
    }
  }

  method DecodeParseResult(b: Bytes) returns (r: Result<ParseResult>)
    ensures r.Ok? ==> Parse(b) == Some(r.value)
    ensures r.Err? ==> Parse(b).None?
  {
    var reader := new ByteReader(b);
    var imports := reader.StringList();
    if imports.Err? { return Err; }
    var jsxImports := reader.StringList();
    if jsxImports.Err? { return Err; }
    var urlImports := reader.StringList();
    if urlImports.Err? { return Err; }
    var modules := reader.StringList();
    if modules.Err? { return Err; }
    var errors := reader.StringList();
    if errors.Err? { return Err; }
    if reader.off != |reader.b| { return Err; }
    r := Ok(ParseResult(imports.value, jsxImports.value, urlImports.value, modules.value, errors.value));
  }

  /******* The two are inverse *******/

  lemma Peel(b: Byte, q: nat, n: nat)
    ensures b as int + 256 * q == n <==> n % 256 == b as int && n / 256 == q
  {}

  lemma AssembleInverse(b0: Byte, b1: Byte, b2: Byte, b3: Byte, n: nat)
    ensures n < TWO32 && [b0, b1, b2, b3] == LittleEndian(n) <==> Assemble(b0, b1, b2, b3) == n
  {
    var n1 := n / 256;
    var n2 := n1 / 256;
    var n3 := n2 / 256;
    var x2 := b2 as int + 256 * b3 as int;
    Peel(b0, b1 as int + 256 * x2, n);
    Peel(b1, x2, n1);
    Peel(b2, b3 as int, n2);
    var l := LittleEndian(n);
    if n < TWO32 {
      assert n3 < 256;
      assert l == [(n % 256) as Byte, (n1 % 256) as Byte, (n2 % 256) as Byte, n3 as Byte];
    }
    assert [b0, b1, b2, b3] == l <==> b0 == l[0] && b1 == l[1] && b2 == l[2] && b3 == l[3];
  }

  lemma LittleEndianInverse(b: Bytes, off: nat, n: nat)
    requires off + 4 <= |b|
    ensures n < TWO32 && b[off..off + 4] == LittleEndian(n) <==> U32At(b, off) == n
  {
    assert b[off..off + 4] == [b[off], b[off + 1], b[off + 2], b[off + 3]];
    AssembleInverse(b[off], b[off + 1], b[off + 2], b[off + 3], n);
  }

  lemma FormatStringAt(b: Bytes, at: nat, s: Bytes, end: nat)
    requires at <= end <= |b|
    ensures b[at..end] == FormatString(s) && |s| < TWO32 <==>
      at + 4 + |s| == end && U32At(b, at) == |s| && b[at + 4..end] == s
  {
    if at + 4 <= end {
      LittleEndianInverse(b, at, |s|);
      var t := b[at..end];
      assert t[..4] == b[at..at + 4] && t[4..] == b[at + 4..end] && t == t[..4] + t[4..];
      assert FormatString(s)[..4] == LittleEndian(|s|) && FormatString(s)[4..] == s;
    }
  }

  lemma FormatStringsSnoc(front: seq<Bytes>, last: Bytes)
    ensures FormatStrings(front + [last]) == FormatStrings(front) + FormatString(last)
    ensures StringsFit(front + [last]) <==> StringsFit(front) && |last| < TWO32
  {
    var list := front + [last];
    assert list[..|front|] == front && list[|front|] == last;
    if StringsFit(list) {
      forall i | 0 <= i < |front| ensures |front[i]| < TWO32 {
        assert list[i] == front[i];
      }
    }
  }

  lemma ReadStringsSnoc(b: Bytes, off: nat, front: seq<Bytes>, last: Bytes, at: nat, end: nat)
    requires ReadStrings(b, off, |front|) == Some((front, at)) && at <= |b|
    ensures ReadStrings(b, off, |front| + 1) == Some((front + [last], end)) <==>
      at + 4 <= end <= |b| && at + 4 + |last| == end && U32At(b, at) == |last| && b[at + 4..end] == last
  {
    var r := ReadStrings(b, off, |front| + 1);
    if r == Some((front + [last], end)) {
      assert r.value.0[|front|] == last;
    }
  }

  /** Reading strings accepts exactly the formatted bytes of what it returns. */
  lemma {:induction false} StringsReadAreFormatted(b: Bytes, off: nat, list: seq<Bytes>, end: nat)
    requires off <= |b| && ReadStrings(b, off, |list|) == Some((list, end))
    ensures off <= end <= |b| && b[off..end] == FormatStrings(list) && StringsFit(list)
    decreases |list|
  {
    if list != [] {
      var front, last := list[..|list| - 1], list[|list| - 1];
      var at := ReadStrings(b, off, |front|).value.1;
      assert list == front + [last];
      ReadStringsFront(b, off, list, end);
      StringsReadAreFormatted(b, off, front, at);
      ReadStringsSnoc(b, off, front, last, at, end);
      FormatStringAt(b, at, last, end);
      FormatStringsSnoc(front, last);
      assert b[off..end] == b[off..at] + b[at..end];
    }
  }

  lemma ReadStringsFront(b: Bytes, off: nat, list: seq<Bytes>, end: nat)
    requires list != [] && ReadStrings(b, off, |list|) == Some((list, end))
    ensures ReadStrings(b, off, |list| - 1).Some? && ReadStrings(b, off, |list| - 1).value.0 == list[..|list| - 1]
  {}

  lemma {:induction false} FormattedStringsAreRead(b: Bytes, off: nat, list: seq<Bytes>, end: nat)
    requires off <= end <= |b| && b[off..end] == FormatStrings(list) && StringsFit(list)
    ensures ReadStrings(b, off, |list|) == Some((list, end))
    decreases |list|
  {
    if list != [] {
      var front, last := list[..|list| - 1], list[|list| - 1];
      var at := off + |FormatStrings(front)|;
      assert list == front + [last];
      FormatStringsSnoc(front, last);
      assert b[off..end][..at - off] == b[off..at] && b[off..end][at - off..] == b[at..end];
      FormattedStringsAreRead(b, off, front, at);
      FormatStringAt(b, at, last, end);
      ReadStringsSnoc(b, off, front, last, at, end);
    }
  }

  lemma ReadListInverse(b: Bytes, off: nat, list: seq<Bytes>, end: nat)
    requires off <= |b|
    ensures ReadList(b, off) == Some((list, end)) <==>
      off <= end <= |b| && b[off..end] == FormatList(list) && ListFits(list)
  {
    if ReadList(b, off) == Some((list, end)) {
      ReadStringsCount(b, off + 4, U32At(b, off));
      StringsReadAreFormatted(b, off + 4, list, end);
      LittleEndianInverse(b, off, |list|);
      assert b[off..end] == b[off..off + 4] + b[off + 4..end];
    }
    if off <= end <= |b| && b[off..end] == FormatList(list) && ListFits(list) {
      assert b[off..end][..4] == b[off..off + 4] && b[off..end][4..] == b[off + 4..end];
      LittleEndianInverse(b, off, |list|);
      FormattedStringsAreRead(b, off + 4, list, end);
    }
  }

  lemma {:induction false} ReadStringsCount(b: Bytes, off: nat, count: nat)
    requires ReadStrings(b, off, count).Some?
    ensures |ReadStrings(b, off, count).value.0| == count
  {
    if count > 0 {
      ReadStringsCount(b, off, count - 1);
    }
  }

  /** A list read from b is read unchanged from any buffer that continues b. */
  lemma ReadListOfExtension(b: Bytes, x: Bytes, off: nat)
    requires off <= |b| && ReadList(b, off).Some?
    ensures ReadList(b + x, off) == ReadList(b, off)
  {
    var (list, end) := ReadList(b, off).value;
    ReadListInverse(b, off, list, end);
    assert (b + x)[off..end] == b[off..end];
    ReadListInverse(b + x, off, list, end);
  }

  lemma PartsOf(p1: Bytes, p2: Bytes, p3: Bytes, p4: Bytes, p5: Bytes)
    ensures var b := p1 + p2 + p3 + p4 + p5;
      var o1, o2, o3, o4 := |p1|, |p1| + |p2|, |p1| + |p2| + |p3|, |p1| + |p2| + |p3| + |p4|;
      b[0..o1] == p1 && b[o1..o2] == p2 && b[o2..o3] == p3 && b[o3..o4] == p4 && b[o4..|b|] == p5
  {
  }

  lemma FormatIsParsed(r: ParseResult)
    requires Fits(r)
    ensures Parse(Format(r)) == Some(r)
  {
    var b := Format(r);
    var o1 := |FormatList(r.imports)|;
    var o2 := o1 + |FormatList(r.jsxImports)|;
    var o3 := o2 + |FormatList(r.urlImports)|;
    var o4 := o3 + |FormatList(r.modules)|;
    PartsOf(FormatList(r.imports), FormatList(r.jsxImports), FormatList(r.urlImports), FormatList(r.modules), FormatList(r.errors));
    PartIsRead(b, 0, r.imports, o1);
    PartIsRead(b, o1, r.jsxImports, o2);
    PartIsRead(b, o2, r.urlImports, o3);
    PartIsRead(b, o3, r.modules, o4);
    PartIsRead(b, o4, r.errors, |b|);
    PartsAreParsed(b, r, o1, o2, o3, o4);
  }

  lemma PartsAreParsed(b: Bytes, r: ParseResult, o1: nat, o2: nat, o3: nat, o4: nat)
    requires o1 <= |b| && o2 <= |b| && o3 <= |b| && o4 <= |b|
    requires ReadList(b, 0) == Some((r.imports, o1)) && ReadList(b, o1) == Some((r.jsxImports, o2))
    requires ReadList(b, o2) == Some((r.urlImports, o3)) && ReadList(b, o3) == Some((r.modules, o4))
    requires ReadList(b, o4) == Some((r.errors, |b|))
    ensures Parse(b) == Some(r)
  {
  }

  lemma PartIsRead(b: Bytes, off: nat, list: seq<Bytes>, end: nat)
    requires off <= end <= |b| && b[off..end] == FormatList(list) && ListFits(list)
    ensures ReadList(b, off) == Some((list, end))
  {
    ReadListInverse(b, off, list, end);
  }

  lemma FiveParts(b: Bytes, o1: nat, o2: nat, o3: nat, o4: nat)
    requires o1 <= o2 <= o3 <= o4 <= |b|
    ensures b == b[0..o1] + b[o1..o2] + b[o2..o3] + b[o3..o4] + b[o4..|b|]
  {
    assert b[0..o2] == b[0..o1] + b[o1..o2];
    assert b[0..o3] == b[0..o2] + b[o2..o3];
    assert b[0..o4] == b[0..o3] + b[o3..o4];
  }

  lemma ParsedIsFormat(b: Bytes)
    requires Parse(b).Some?
    ensures Fits(Parse(b).value) && b == Format(Parse(b).value)
  {
    var r := Parse(b).value;
    var o1 := ReadList(b, 0).value.1;
    var o2 := ReadList(b, o1).value.1;
    ReadListInverse(b, 0, r.imports, o1);
    ReadListInverse(b, o1, r.jsxImports, o2);
    var o3 := ReadList(b, o2).value.1;
    ReadListInverse(b, o2, r.urlImports, o3);
    var o4 := ReadList(b, o3).value.1;
    ReadListInverse(b, o3, r.modules, o4);
    ReadListInverse(b, o4, r.errors, |b|);
    FiveParts(b, o1, o2, o3, o4);
  }

  /** The decoder accepts exactly the encodings, and gives back what was encoded. */
  lemma DecodingInvertsEncoding(b: Bytes, r: ParseResult)
    ensures Parse(b) == Some(r) <==> Fits(r) && b == Format(r)
  {
    if Parse(b) == Some(r) {
      ParsedIsFormat(b);
    }
    if Fits(r) {
      FormatIsParsed(r);
    }
  }

  /** Of a buffer that decodes, no proper prefix and no proper extension decodes. */
  lemma DecodingIsPrefixFree(b: Bytes, x: Bytes)
    requires Parse(b).Some? && Parse(b + x).Some?
    ensures x == []
  {
    var o1 := ReadList(b, 0).value.1;
    ReadListInverse(b, 0, ReadList(b, 0).value.0, o1);
    var o2 := ReadList(b, o1).value.1;
    ReadListInverse(b, o1, ReadList(b, o1).value.0, o2);
    var o3 := ReadList(b, o2).value.1;
    ReadListInverse(b, o2, ReadList(b, o2).value.0, o3);
    var o4 := ReadList(b, o3).value.1;
    ReadListInverse(b, o3, ReadList(b, o3).value.0, o4);
    ReadListOfExtension(b, x, 0);
    ReadListOfExtension(b, x, o1);
    ReadListOfExtension(b, x, o2);
    ReadListOfExtension(b, x, o3);
    ReadListOfExtension(b, x, o4);
  }

  /******* An example *******/

  /** One string of one byte: the count, the length and the byte. */
  lemma FormatOfOne(c: Byte)
    ensures FormatList([[c]]) == [1, 0, 0, 0, 1, 0, 0, 0, c]
  {
    assert [[c]][..0] == [] && FormatStrings([[c]]) == FormatString([c]);
  }

  /** The five lists in the order of the buffer. */
  lemma ExampleBuffer(r: ParseResult)
    requires r == ParseResult([[105]], [[106]], [[117]], [[109]], [[101]])
    ensures Format(r) == [1, 0, 0, 0, 1, 0, 0, 0, 105] + [1, 0, 0, 0, 1, 0, 0, 0, 106] + [1, 0, 0, 0, 1, 0, 0, 0, 117]
      + [1, 0, 0, 0, 1, 0, 0, 0, 109] + [1, 0, 0, 0, 1, 0, 0, 0, 101]
  {
    FormatOfOne(105);
    FormatOfOne(106);
    FormatOfOne(117);
    FormatOfOne(109);
    FormatOfOne(101);
  }

  /** The bytes of a length weigh 1, 256, 256^2 and 256^3. */
  lemma BytesWeigh(n: nat)
    requires n < TWO32
    ensures var b := LittleEndian(n); n == b[0] as int + 0x100 * b[1] as int + 0x1_0000 * b[2] as int + 0x100_0000 * b[3] as int
  {
    var b := LittleEndian(n);
    AssembleInverse(b[0], b[1], b[2], b[3], n);
    assert b == [b[0], b[1], b[2], b[3]];
  }
}
