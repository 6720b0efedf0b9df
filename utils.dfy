/** sdss/utils.py: the object-ID decoder `decode_objid`, the text side of
    `sql2df` (the query encoded into the URL, the CSV reply split into
    rows), the URL `img_cutout` requests and the file name and URL of
    `download_frame`. The HTTP calls themselves are parameters. */
module Utils {
  import opened PyTypes
  import opened Text
  import opened Numerals

  // ---------------------------------------------------------------------
  // decode_objid

  /** The seven fields of an SDSS object ID, as `decode_objid` names them. */
  datatype ObjId = ObjId(
    version: nat,
    rerun: nat,
    run: nat,
    camcol: nat,
    firstField: nat,
    field: nat,
    idWithinField: nat)

  const TWO_63: nat := 0x8000_0000_0000_0000
  const TWO_64: nat := 0x1_0000_0000_0000_0000

  /** `bin(obj_id)[2:].zfill(64)` */
  function ObjIdBits(id: int): (b: string)
    ensures |b| >= 64
  {
    ZFill(BinText(id), 64)
  }

  /** `decode_objid` on an int: each field is `int(b[lo:hi], 2)` of the
      zero-padded binary text `b`; the first character of `b` is never
      read. An unparsable slice raises ValueError. */
  function DecodeObjId(id: int): Result<ObjId>
  {
    var b := ObjIdBits(id);
    var version := ParseBin(b[1..5]);
    var rerun := ParseBin(b[5..16]);
    var run := ParseBin(b[16..32]);
    var camcol := ParseBin(b[32..35]);
    var firstField := ParseBin(b[35..36]);
    var field := ParseBin(b[36..48]);
    var idWithinField := ParseBin(b[48..]);
    if && version.Some? && rerun.Some? && run.Some? && camcol.Some?
       && firstField.Some? && field.Some? && idWithinField.Some?
    then
      Success(ObjId(version.value, rerun.value, run.value, camcol.value,
                    firstField.value, field.value, idWithinField.value))
    else
      Failure(ValueError)
  }

  /** `decode_objid(obj_id)`: a str is turned into an int with `int()` first. */
  function DecodeObjIdArg(arg: Arg): Result<ObjId>
  {
    match arg
    case IntArg(n) => DecodeObjId(n)
    case StrArg(s) =>
      match ParseInt(s)
      case None => Failure(ValueError)
      case Some(n) => DecodeObjId(n)
  }

  /** `str(x)` for an identifier argument. */
  function ArgText(arg: Arg): string
  {
    match arg
    case IntArg(n) => IntStr(n)
    case StrArg(s) => s
  }

  /** The fields put back at the bit positions they are read from: version
      at bit 59, rerun at 48, run at 32, camcol at 29, firstField at 28,
      field at 16 and idWithinField at 0. */
  function Encode(o: ObjId): nat
  {
    o.version * 0x800_0000_0000_0000 + o.rerun * 0x1_0000_0000_0000 + o.run * 0x1_0000_0000
    + o.camcol * 0x2000_0000 + o.firstField * 0x1000_0000 + o.field * 0x1_0000 + o.idWithinField
  }

  /** Every field fits the width of its slice: 4, 11, 16, 3, 1, 12 and 16 bits. */
  predicate InBounds(o: ObjId)
  {
    && o.version < 16 && o.rerun < 0x800 && o.run < 0x1_0000 && o.camcol < 8
    && o.firstField < 2 && o.field < 0x1000 && o.idWithinField < 0x1_0000
  }

  /** For a non-negative id the padded text is binary digits only. */
  lemma ObjIdBitsBinary(n: int)
    requires n >= 0
    ensures AllBits(ObjIdBits(n))
    ensures n < TWO_64 ==> |ObjIdBits(n)| == 64 && BinVal(ObjIdBits(n)) == n
  {
    var d := BinDigits(n);
    ZFillUnsigned(d, 64);
    var b := ObjIdBits(n);
    BinValZeros(|b| - |d|, d);
    BinValDigits(n);
    if n < TWO_64 {
      Pow2Widths();
      BinDigitsFit(n, 64);
    }
  }

  /** Every non-negative int decodes without error, however large. */
  lemma DecodeNonNegative(n: int)
    requires n >= 0
    ensures DecodeObjId(n).Success?
  {
    var b := ObjIdBits(n);
    assert AllBits(b) by {
      ObjIdBitsBinary(n);
    }
    SlicesRead(b);
  }

  /** An int at or below -2^62 decodes without error too: `bin` gives a
      'b' and at least 63 digits, which `zfill(64)` leaves as they are, so
      the 'b' is the first character, the one that is never read. */
  lemma DecodeVeryNegative(n: int)
    requires n <= -0x4000_0000_0000_0000
    ensures ObjIdBits(n)[0] == 'b'
    ensures DecodeObjId(n).Success?
  {
    var d := BinDigits(-n);
    Pow2Widths();
    assert Pow2(63) == 2 * Pow2(62);
    BinDigitsLong(-n, 62);
    var t := BinText(n);
    assert t == "b" + d && |t| >= 64;
    assert ObjIdBits(n) == t;
    assert t[1..] == d;
    TailSlicesRead(t);
  }

  /** Every field slice parses when all characters after the first are
      binary digits, whatever the first one is. */
  lemma TailSlicesRead(b: string)
    requires |b| >= 64 && AllBits(b[1..])
    ensures && ParseBin(b[1..5]).Some? && ParseBin(b[5..16]).Some? && ParseBin(b[16..32]).Some?
            && ParseBin(b[32..35]).Some? && ParseBin(b[35..36]).Some? && ParseBin(b[36..48]).Some?
            && ParseBin(b[48..]).Some?
  {
    var d := b[1..];
    assert b[1..5] == d[0..4];
    assert b[5..16] == d[4..15];
    assert b[16..32] == d[15..31];
    assert b[32..35] == d[31..34];
    assert b[35..36] == d[34..35];
    assert b[36..48] == d[35..47];
    assert b[48..] == d[47..];
  }

  /** Each field slice of at least 64 binary digits reads as its value. */
  lemma SlicesRead(b: string)
    requires |b| >= 64 && AllBits(b)
    ensures && ParseBin(b[1..5]) == Some(BinVal(b[1..5]))
            && ParseBin(b[5..16]) == Some(BinVal(b[5..16]))
            && ParseBin(b[16..32]) == Some(BinVal(b[16..32]))
            && ParseBin(b[32..35]) == Some(BinVal(b[32..35]))
            && ParseBin(b[35..36]) == Some(BinVal(b[35..36]))
            && ParseBin(b[36..48]) == Some(BinVal(b[36..48]))
            && ParseBin(b[48..]) == Some(BinVal(b[48..]))
  {
    SliceRead(b, 1, 5);
    SliceRead(b, 5, 16);
    SliceRead(b, 16, 32);
    SliceRead(b, 32, 35);
    SliceRead(b, 35, 36);
    SliceRead(b, 36, 48);
    SliceRead(b, 48, |b|);
    assert b[48..] == b[48..|b|];
  }

  lemma SliceRead(b: string, i: nat, j: nat)
    requires AllBits(b) && i < j <= |b|
    ensures ParseBin(b[i..j]) == Some(BinVal(b[i..j]))
  {
    assert AllBits(b[i..j]);
  }

  /** The field values of a 64-digit binary text, read the way
      `decode_objid` reads them. */
  function FieldsOf(b: string): ObjId
    requires |b| == 64 && AllBits(b)
  {
    ObjId(BinVal(b[1..5]), BinVal(b[5..16]), BinVal(b[16..32]), BinVal(b[32..35]),
          BinVal(b[35..36]), BinVal(b[36..48]), BinVal(b[48..]))
  }

  lemma DecodeReadsFields(n: int)
    requires 0 <= n < TWO_64
    ensures |ObjIdBits(n)| == 64 && AllBits(ObjIdBits(n)) && BinVal(ObjIdBits(n)) == n
    ensures DecodeObjId(n) == Success(FieldsOf(ObjIdBits(n)))
  {
    var b := ObjIdBits(n);
    assert |b| == 64 && AllBits(b) && BinVal(b) == n by {
      ObjIdBitsBinary(n);
    }
    SlicesRead(b);
  }

  /** 2^k for the field widths of an object ID. */
  function FieldSpan(k: nat): nat
  {
    match k
    case 1 => 2
    case 3 => 8
    case 4 => 16
    case 11 => 0x800
    case 12 => 0x1000
    case 16 => 0x1_0000
    case _ => 0
  }

  /** `BinValSplit` at a field boundary, with the power of two as a number. */
  lemma SplitAt(b: string, i: nat, j: nat, w: nat)
    requires AllBits(b) && i <= j <= |b| && FieldSpan(j - i) == w && w > 0
    ensures BinVal(b[..j]) == BinVal(b[..i]) * w + BinVal(b[i..j])
    ensures BinVal(b[i..j]) < w
  {
    assert Pow2(j - i) == w by {
      Pow2Widths();
    }
    BinValSplit(b, i, j);
    BinValBound(b[i..j]);
  }

  /** The digit arithmetic of `FieldsRecombine`: seven shifts and adds. */
  lemma Recombine(top: nat, v: nat, rr: nat, run: nat, cam: nat, ff: nat, fld: nat, id: nat,
                  p5: nat, p16: nat, p32: nat, p35: nat, p36: nat, p48: nat, p64: nat)
    requires p5 == top * 16 + v && p16 == p5 * 0x800 + rr && p32 == p16 * 0x1_0000 + run
    requires p35 == p32 * 8 + cam && p36 == p35 * 2 + ff && p48 == p36 * 0x1000 + fld
    requires p64 == p48 * 0x1_0000 + id
    ensures p64 == top * TWO_63 + Encode(ObjId(v, rr, run, cam, ff, fld, id))
  {
  }

  /** The fields of 64 binary digits fit their widths. */
  lemma FieldsFit(b: string)
    requires |b| == 64 && AllBits(b)
    ensures InBounds(FieldsOf(b))
  {
    BoundAt(b[1..5], 16);
    BoundAt(b[5..16], 0x800);
    BoundAt(b[16..32], 0x1_0000);
    BoundAt(b[32..35], 8);
    BoundAt(b[35..36], 2);
    BoundAt(b[36..48], 0x1000);
    BoundAt(b[48..], 0x1_0000);
  }

  /** `BinValBound` for a field, with the power of two as a number. */
  lemma BoundAt(s: string, w: nat)
    requires AllBits(s) && FieldSpan(|s|) == w && w > 0
    ensures BinVal(s) < w
  {
    Pow2Widths();
    BinValBound(s);
  }

  /** 64 binary digits are their first digit at bit 63 plus their fields
      put back in place. */
  lemma FieldsRecombine(b: string)
    requires |b| == 64 && AllBits(b)
    ensures BinVal(b) == BinVal(b[..1]) * TWO_63 + Encode(FieldsOf(b))
    ensures BinVal(b[..1]) < 2
  {
    var f := FieldsOf(b);
    var top, p5, p16, p32 := PrefixHigh(b);
    var p35, p36, p48 := PrefixLow(b);
    Recombine(top, f.version, f.rerun, f.run, f.camcol, f.firstField, f.field, f.idWithinField,
              p5, p16, p32, p35, p36, p48, BinVal(b));
  }

  /** The values of the first 1, 5, 16 and 32 digits, each from the one before. */
  lemma PrefixHigh(b: string) returns (top: nat, p5: nat, p16: nat, p32: nat)
    requires |b| == 64 && AllBits(b)
    ensures var f := FieldsOf(b);
            && top == BinVal(b[..1]) && top < 2
            && p5 == top * 16 + f.version && p16 == p5 * 0x800 + f.rerun
            && p32 == p16 * 0x1_0000 + f.run && p32 == BinVal(b[..32])
  {
    top, p5, p16, p32 := BinVal(b[..1]), BinVal(b[..5]), BinVal(b[..16]), BinVal(b[..32]);
    assert top < 2 by {
      SplitAt(b, 0, 1, 2);
      assert b[0..1] == b[..1];
    }
    assert p5 == top * 16 + BinVal(b[1..5]) by { SplitAt(b, 1, 5, 16); }
    assert p16 == p5 * 0x800 + BinVal(b[5..16]) by { SplitAt(b, 5, 16, 0x800); }
    assert p32 == p16 * 0x1_0000 + BinVal(b[16..32]) by { SplitAt(b, 16, 32, 0x1_0000); }
  }

  /** The values of the first 35, 36 and 48 digits and of all 64. */
  lemma PrefixLow(b: string) returns (p35: nat, p36: nat, p48: nat)
    requires |b| == 64 && AllBits(b)
    ensures var f := FieldsOf(b);
            && p35 == BinVal(b[..32]) * 8 + f.camcol && p36 == p35 * 2 + f.firstField
            && p48 == p36 * 0x1000 + f.field && BinVal(b) == p48 * 0x1_0000 + f.idWithinField
  {
    p35, p36, p48 := BinVal(b[..35]), BinVal(b[..36]), BinVal(b[..48]);
    assert p35 == BinVal(b[..32]) * 8 + BinVal(b[32..35]) by { SplitAt(b, 32, 35, 8); }
    assert p36 == p35 * 2 + BinVal(b[35..36]) by { SplitAt(b, 35, 36, 2); }
    assert p48 == p36 * 0x1000 + BinVal(b[36..48]) by { SplitAt(b, 36, 48, 0x1000); }
    assert BinVal(b) == p48 * 0x1_0000 + BinVal(b[48..]) by {
      SplitAt(b, 48, 64, 0x1_0000);
      assert b[..64] == b;
      assert b[48..64] == b[48..];
    }
  }

  lemma ModTop(top: nat, rest: nat)
    requires top < 2 && rest < TWO_63
    ensures (top * TWO_63 + rest) % TWO_63 == rest
  {
    if top == 1 {
      assert top * TWO_63 + rest == TWO_63 + rest;
    }
  }

  /** For every id below 2^64 the decoded fields fit their widths, and
      packing them back gives the id without its top bit (bit 63 is never
      read). */
  lemma DecodeRecombines(n: int)
    requires 0 <= n < TWO_64
    ensures DecodeObjId(n).Success?
    ensures InBounds(DecodeObjId(n).value)
    ensures Encode(DecodeObjId(n).value) == n % TWO_63
  {
    DecodeReadsFields(n);
    var b := ObjIdBits(n);
    FieldsFit(b);
    FieldsRecombine(b);
    ModTop(BinVal(b[..1]), Encode(FieldsOf(b)));
  }

  /** Bit 63 is never read: an id and the same id with bit 63 set decode
      to the same fields. */
  lemma DecodeIgnoresTopBit(n: int)
    requires 0 <= n < TWO_63
    ensures DecodeObjId(n) == DecodeObjId(n + TWO_63)
  {
    DecodeRecombines(n);
    DecodeRecombines(n + TWO_63);
    ModTop(0, n);
    ModTop(1, n);
    EncodeInjective(DecodeObjId(n).value, DecodeObjId(n + TWO_63).value);
  }

  /** q * d + r determines q and r when 0 <= r < d. */
  lemma DivUnique(d: int, q1: int, r1: int, q2: int, r2: int)
    requires d > 0 && 0 <= r1 < d && 0 <= r2 < d
    requires q1 * d + r1 == q2 * d + r2
    ensures q1 == q2 && r1 == r2
  {
    var k := q2 - q1;
    assert r1 - r2 == k * d by {
      assert q2 * d - q1 * d == (q2 - q1) * d;
    }
  }

  /** Fields that fit their widths are determined by their packed value. */
  lemma EncodeInjective(o: ObjId, p: ObjId)
    requires InBounds(o) && InBounds(p) && Encode(o) == Encode(p)
    ensures o == p
  {
    var a1, b1 := o.version * 0x800 + o.rerun, p.version * 0x800 + p.rerun;
    var a2, b2 := a1 * 0x1_0000 + o.run, b1 * 0x1_0000 + p.run;
    var a3, b3 := a2 * 8 + o.camcol, b2 * 8 + p.camcol;
    var a4, b4 := a3 * 2 + o.firstField, b3 * 2 + p.firstField;
    var a5, b5 := a4 * 0x1000 + o.field, b4 * 0x1000 + p.field;
    assert Encode(o) == a5 * 0x1_0000 + o.idWithinField;
    assert Encode(p) == b5 * 0x1_0000 + p.idWithinField;
    DivUnique(0x1_0000, a5, o.idWithinField, b5, p.idWithinField);
    DivUnique(0x1000, a4, o.field, b4, p.field);
    DivUnique(2, a3, o.firstField, b3, p.firstField);
    DivUnique(8, a2, o.camcol, b2, p.camcol);
    DivUnique(0x1_0000, a1, o.run, b1, p.run);
    DivUnique(0x800, o.version, o.rerun, p.version, p.rerun);
  }

  /** Decoding the packed value of in-range fields gives the fields back. */
  lemma DecodeEncode(o: ObjId)
    requires InBounds(o)
    ensures DecodeObjId(Encode(o)) == Success(o)
  {
    var n := Encode(o);
    assert n < TWO_63;
    ModTop(0, n);
    DecodeRecombines(n);
    EncodeInjective(o, DecodeObjId(n).value);
  }

  /** Decoding the decimal text of an int is decoding the int. */
  lemma DecodeText(n: int)
    ensures DecodeObjIdArg(StrArg(IntStr(n))) == DecodeObjIdArg(IntArg(n))
  {
    ParseIntStr(n);
  }

  // ---------------------------------------------------------------------
  // sql2df

  const SQL_BASE := "http://skyserver.sdss.org/dr16/SkyServerWS/SearchTools/SqlSearch?cmd="

  /** The query as it goes into the URL: stripped, its lines joined with
      single spaces, then every space written as "%20". */
  function EncodeSql(script: string): string
  {
    Replace(Join(Split(Strip(script), '\n'), " "), " ", "%20")
  }

  /** The URL `sql2df` opens for a query. */
  function SqlUrl(script: string): string
  {
    SQL_BASE + EncodeSql(script) + "&format=csv"
  }

  /** The encoded query holds neither a space nor a newline. */
  lemma EncodeSqlOneLine(script: string)
    ensures ' ' !in EncodeSql(script) && '\n' !in EncodeSql(script)
  {
    var t := Strip(script);
    JoinSplit(t, '\n', ' ');
    ReplaceRemoves(Subst(t, '\n', ' '), ' ', "%20");
    ReplaceAddsNothing(Subst(t, '\n', ' '), " ", "%20", '\n');
  }

  /** Unescaping "%20" in the encoded query gives the stripped query with
      each newline turned into a space, provided it held no '%'. */
  lemma EncodeSqlUnescapes(script: string)
    requires '%' !in script
    ensures Replace(EncodeSql(script), "%20", " ") == Subst(Strip(script), '\n', ' ')
  {
    var t := Strip(script);
    StripAddsNothing(script, '%');
    JoinSplit(t, '\n', ' ');
    EscapeSpacesRoundTrip(Subst(t, '\n', ' '));
  }

  /** A reply of the SQL service: the column names and the rows, every cell
      kept as text. */
  datatype Table = Table(columns: seq<string>, rows: seq<seq<string>>)

  /** The reply split the way `sql2df` splits it: line 0 is dropped, line 1
      gives the column names and every later line one row, each cut at ','.
      A reply of fewer than two lines makes `lines[1]` raise IndexError. */
  function ParseCsv(response: string): (r: Result<Table>)
    ensures r.Failure? <==> |SplitLines(response)| < 2
    ensures r.Failure? ==> r.error == IndexError
    ensures r.Success? ==> |r.value.rows| == |SplitLines(response)| - 2
  {
    var lines := SplitLines(response);
    if |lines| < 2 then Failure(IndexError)
    else
      Success(Table(Split(lines[1], ','),
                    seq(|lines| - 2, k requires 0 <= k < |lines| - 2 => Split(lines[k + 2], ','))))
  }

  /** `sql2df(script)`; `get` is the HTTP GET, from URL to reply text or
      to the error the request raises, which `sql2df` raises in turn. */
  function Sql2df(script: string, get: string -> Result<string>): Result<Table>
  {
    match get(SqlUrl(script))
    case Failure(e) => Failure(e)
    case Success(text) => ParseCsv(text)
  }

  predicate IsHexDigit(c: char)
  {
    '0' <= c <= '9' || 'a' <= c <= 'f' || 'A' <= c <= 'F'
  }

  function HexValue(c: char): (v: nat)
    requires IsHexDigit(c)
    ensures v < 16
  {
    if '0' <= c <= '9' then c as nat - '0' as nat
    else if 'a' <= c <= 'f' then c as nat - 'a' as nat + 10
    else c as nat - 'A' as nat + 10
  }

  /** `binascii.a2b_hex(s)`: each pair of hex digits, in either case, is
      one byte. An odd length or any other character raises
      `binascii.Error`, a ValueError; `None` stands for it. */
  function A2bHex(s: string): Option<seq<nat>>
    decreases |s|
  {
    if s == [] then Some([])
    else if |s| < 2 || !IsHexDigit(s[0]) || !IsHexDigit(s[1]) then None
    else
      match A2bHex(s[2..])
      case None => None
      case Some(rest) => Some([16 * HexValue(s[0]) + HexValue(s[1])] + rest)
  }

  /** `a2b_hex` succeeds exactly on an even run of hex digits, and then
      byte `k` is the value of digits `2k` and `2k + 1`. */
  lemma {:induction false} A2bHexReads(s: string)
    ensures A2bHex(s).Some? <==> |s| % 2 == 0 && forall i :: 0 <= i < |s| ==> IsHexDigit(s[i])
    ensures A2bHex(s).Some? ==> |A2bHex(s).value| * 2 == |s|
    ensures A2bHex(s).Some? ==> forall k :: 0 <= k < |A2bHex(s).value| ==>
              A2bHex(s).value[k] == 16 * HexValue(s[2 * k]) + HexValue(s[2 * k + 1])
    decreases |s|
  {
    if |s| >= 2 && IsHexDigit(s[0]) && IsHexDigit(s[1]) {
      var t := s[2..];
      A2bHexReads(t);
      if A2bHex(t).None? {
        if |s| % 2 == 0 {
          var i :| 0 <= i < |t| && !IsHexDigit(t[i]);
          assert !IsHexDigit(s[i + 2]);
        }
      } else {
        var r := A2bHex(s).value;
        var rest := A2bHex(t).value;
        assert r == [16 * HexValue(s[0]) + HexValue(s[1])] + rest;
        forall k | 1 <= k < |r|
          ensures r[k] == 16 * HexValue(s[2 * k]) + HexValue(s[2 * k + 1])
        {
          assert r[k] == rest[k - 1];
          assert s[2 * k] == t[2 * (k - 1)] && s[2 * k + 1] == t[2 * (k - 1) + 1];
        }
        assert forall i :: 2 <= i < |s| ==> s[i] == t[i - 2];
      }
    }
  }

  /** The hex digit for a value below 16, in lower case. */
  function HexDigit(v: nat): (c: char)
    requires v < 16
    ensures IsHexDigit(c) && HexValue(c) == v
  {
    if v < 10 then ('0' as nat + v) as char else ('a' as nat + v - 10) as char
  }

  /** Bytes written as two hex digits each, as the SQL service writes a
      binary column after its "0x". */
  function HexText(bytes: seq<nat>): (s: string)
    requires forall k :: 0 <= k < |bytes| ==> bytes[k] < 256
    ensures |s| == 2 * |bytes|
  {
    if bytes == [] then ""
    else [HexDigit(bytes[0] / 16), HexDigit(bytes[0] % 16)] + HexText(bytes[1..])
  }

  /** `a2b_hex` reads back every byte sequence written in hex. */
  lemma {:induction false} A2bHexText(bytes: seq<nat>)
    requires forall k :: 0 <= k < |bytes| ==> bytes[k] < 256
    ensures A2bHex(HexText(bytes)) == Some(bytes)
  {
    if bytes != [] {
      A2bHexText(bytes[1..]);
      var hi, lo := HexDigit(bytes[0] / 16), HexDigit(bytes[0] % 16);
      var s := HexText(bytes);
      assert s == [hi, lo] + HexText(bytes[1..]);
      assert s[0] == hi && s[1] == lo && s[2..] == HexText(bytes[1..]);
      assert 16 * HexValue(hi) + HexValue(lo) == bytes[0];
      assert [bytes[0]] + bytes[1..] == bytes;
    }
  }

  /** `binimg2array(img_raw)`: the text after its first two characters
      (the "0x" of a binary column) is read as hex, then opened as an
      image; `openImage` is PIL's `Image.open` with `np.array`, which
      raises on bytes that are no image. */
  function BinImg2Array(imgRaw: string, openImage: seq<nat> -> Result<Pixels>): Result<Pixels>
  {
    var hex := if |imgRaw| >= 2 then imgRaw[2..] else "";
    match A2bHex(hex)
    case None => Failure(ValueError)
    case Some(bytes) => openImage(bytes)
  }

  /** A column value "0x" plus hex text opens exactly the bytes it spells;
      anything after the prefix that is not an even run of hex digits
      raises ValueError before an image is opened. */
  lemma BinImgOfHex(prefix: string, bytes: seq<nat>, rest: string, openImage: seq<nat> -> Result<Pixels>)
    requires |prefix| == 2 && forall k :: 0 <= k < |bytes| ==> bytes[k] < 256
    ensures BinImg2Array(prefix + HexText(bytes), openImage) == openImage(bytes)
    ensures (|rest| % 2 == 1 || exists i :: 0 <= i < |rest| && !IsHexDigit(rest[i]))
            ==> BinImg2Array(prefix + rest, openImage) == Failure(ValueError)
  {
    assert (prefix + HexText(bytes))[2..] == HexText(bytes);
    A2bHexText(bytes);
    assert (prefix + rest)[2..] == rest;
    A2bHexReads(rest);
  }

  /** A reply laid out the way the service writes one: a status line, the
      column names and the rows, cells joined by ',', lines ended by "\n". */
  function CsvText(status: string, columns: seq<string>, rows: seq<seq<string>>): string
  {
    Lines([status, Join(columns, ",")] + seq(|rows|, k requires 0 <= k < |rows| => Join(rows[k], ",")))
  }

  /** A cell the layout above can carry: no ',' and no line boundary. */
  predicate PlainCell(c: string) { ',' !in c && NoLineBreak(c) }

  predicate PlainCells(cells: seq<string>)
  {
    |cells| >= 1 && forall k :: 0 <= k < |cells| ==> PlainCell(cells[k])
  }

  lemma {:induction false} JoinKeepsLines(cells: seq<string>)
    requires forall k :: 0 <= k < |cells| ==> NoLineBreak(cells[k])
    ensures NoLineBreak(Join(cells, ","))
  {
    if |cells| > 1 {
      JoinKeepsLines(cells[1..]);
      var rest := Join(cells[1..], ",");
      var s := cells[0] + "," + rest;
      forall i | 0 <= i < |s|
        ensures !IsLineBreak(s[i])
      {
        if i < |cells[0]| {
          assert s[i] == cells[0][i];
        } else if i > |cells[0]| {
          assert s[i] == rest[i - |cells[0]| - 1];
        }
      }
    }
  }

  lemma SplitJoinCells(cells: seq<string>)
    requires PlainCells(cells)
    ensures Split(Join(cells, ","), ',') == cells
    ensures NoLineBreak(Join(cells, ","))
  {
    SplitJoin(cells, ',');
    JoinKeepsLines(cells);
  }

  /** Splitting a reply laid out by `CsvText` gives back its column names and
      rows, in order; a reply with no rows gives a table with no rows. */
  lemma ParseCsvText(status: string, columns: seq<string>, rows: seq<seq<string>>)
    requires NoLineBreak(status)
    requires PlainCells(columns)
    requires forall k :: 0 <= k < |rows| ==> PlainCells(rows[k])
    ensures ParseCsv(CsvText(status, columns, rows)) == Success(Table(columns, rows))
  {
    var ls := [status, Join(columns, ",")] + seq(|rows|, k requires 0 <= k < |rows| => Join(rows[k], ","));
    SplitJoinCells(columns);
    forall k | 0 <= k < |rows|
      ensures Split(Join(rows[k], ","), ',') == rows[k] && NoLineBreak(Join(rows[k], ","))
    {
      SplitJoinCells(rows[k]);
    }
    SplitLinesOfLines(ls);
    var t := ParseCsv(CsvText(status, columns, rows));
    assert t.value.rows == rows;
  }

  // ---------------------------------------------------------------------
  // img_cutout

  const CUTOUT_BASE := "http://skyserver.sdss.org/dr16/SkyServerWS/ImgCutout/getjpeg?"

  /** The URL `img_cutout` opens. The five numbers arrive as their `str()`
      texts; `&opt=` and `&query=` are added only for non-empty values. */
  function CutoutUrl(ra: string, dec: string, scale: string, width: string, height: string,
                     opt: string, query: string): string
  {
    CUTOUT_BASE + CutoutPar(ra, dec, scale, width, height) + OptPart("opt", opt) + OptPart("query", query)
  }

  /** The part of the cutout URL every request carries. */
  function CutoutPar(ra: string, dec: string, scale: string, width: string, height: string): string
  {
    "ra=" + ra + "&dec=" + dec + "&scale=" + scale + "&width=" + width + "&height=" + height
  }

  /** "&name=value" for a non-empty value, nothing otherwise. */
  function OptPart(name: string, value: string): string
  {
    if value != "" then "&" + name + "=" + value else ""
  }

  function FivePairs(ra: string, dec: string, scale: string, width: string, height: string): seq<string>
  {
    ["ra=" + ra, "dec=" + dec, "scale=" + scale, "width=" + width, "height=" + height]
  }

  function OptPairs(name: string, value: string): (r: seq<string>)
    ensures |r| <= 1
  {
    if value != "" then [name + "=" + value] else []
  }

  /** The key=value pairs the cutout service should receive, in order. */
  function CutoutParams(ra: string, dec: string, scale: string, width: string, height: string,
                        opt: string, query: string): seq<string>
  {
    FivePairs(ra, dec, scale, width, height) + OptPairs("opt", opt) + OptPairs("query", query)
  }

  /** The name of a key=value pair. */
  function Key(p: string): string
  {
    p[..IndexOf(p, '=')]
  }

  function Keys(ps: seq<string>): (ks: seq<string>)
    ensures |ks| == |ps|
  {
    seq(|ps|, k requires 0 <= k < |ps| => Key(ps[k]))
  }

  predicate NoAmp(s: string) { '&' !in s }

  lemma JoinCons(p: string, rest: seq<string>, sep: string)
    requires |rest| >= 1
    ensures Join([p] + rest, sep) == p + sep + Join(rest, sep)
  {
    assert ([p] + rest)[1..] == rest;
  }

  lemma FivePairsJoin(ra: string, dec: string, scale: string, width: string, height: string)
    ensures Join(FivePairs(ra, dec, scale, width, height), "&") == CutoutPar(ra, dec, scale, width, height)
  {
    JoinFive("ra=" + ra, "dec=" + dec, "scale=" + scale, "width=" + width, "height=" + height, "&");
    CutoutLiterals();
    Regroup5("ra=", ra, "&", "dec=", dec, "scale=", scale, "width=", width, "height=", height);
  }

  /** Five texts joined by a separator. */
  lemma JoinFive(a: string, b: string, c: string, d: string, e: string, sep: string)
    ensures Join([a, b, c, d, e], sep) == a + sep + b + sep + c + sep + d + sep + e
  {
    JoinCons(d, [e], sep);
    assert [c, d, e] == [c] + [d, e];
    JoinCons(c, [d, e], sep);
    assert [b, c, d, e] == [b] + [c, d, e];
    JoinCons(b, [c, d, e], sep);
    assert [a, b, c, d, e] == [a] + [b, c, d, e];
    JoinCons(a, [b, c, d, e], sep);
  }

  lemma CutoutLiterals()
    ensures "&dec=" == "&" + "dec=" && "&scale=" == "&" + "scale="
    ensures "&width=" == "&" + "width=" && "&height=" == "&" + "height="
  {
  }

  lemma Regroup5(k1: string, v1: string, amp: string, k2: string, v2: string, k3: string, v3: string,
                 k4: string, v4: string, k5: string, v5: string)
    ensures k1 + v1 + amp + (k2 + v2) + amp + (k3 + v3) + amp + (k4 + v4) + amp + (k5 + v5)
            == k1 + v1 + (amp + k2) + v2 + (amp + k3) + v3 + (amp + k4) + v4 + (amp + k5) + v5
  {
  }

  /** Appending an optional pair to a non-empty join appends its URL part. */
  lemma {:induction false} JoinOptPair(ps: seq<string>, name: string, value: string)
    requires |ps| >= 1
    ensures Join(ps + OptPairs(name, value), "&") == Join(ps, "&") + OptPart(name, value)
  {
    var extra := OptPairs(name, value);
    if extra == [] {
      assert ps + extra == ps;
    } else if |ps| == 1 {
      assert (ps + extra)[1..] == extra;
    } else {
      assert (ps + extra)[1..] == ps[1..] + extra;
      JoinOptPair(ps[1..], name, value);
    }
  }

  /** The text after the fixed prefix is the expected pairs joined by '&'. */
  lemma CutoutUrlJoin(ra: string, dec: string, scale: string, width: string, height: string,
                      opt: string, query: string)
    ensures var url := CutoutUrl(ra, dec, scale, width, height, opt, query);
            && url[..|CUTOUT_BASE|] == CUTOUT_BASE
            && url[|CUTOUT_BASE|..] == Join(CutoutParams(ra, dec, scale, width, height, opt, query), "&")
  {
    var five := FivePairs(ra, dec, scale, width, height);
    FivePairsJoin(ra, dec, scale, width, height);
    JoinOptPair(five, "opt", opt);
    JoinOptPair(five + OptPairs("opt", opt), "query", query);
    var tail := CutoutPar(ra, dec, scale, width, height) + OptPart("opt", opt) + OptPart("query", query);
    assert CutoutUrl(ra, dec, scale, width, height, opt, query) == CUTOUT_BASE + tail;
  }

  /** Cut at '&' after the fixed prefix, the cutout URL holds exactly the
      expected pairs: the five numbers in order, then `opt` if non-empty,
      then `query` if non-empty. */
  lemma CutoutUrlParams(ra: string, dec: string, scale: string, width: string, height: string,
                        opt: string, query: string)
    requires NoAmp(ra) && NoAmp(dec) && NoAmp(scale) && NoAmp(width) && NoAmp(height)
    requires NoAmp(opt) && NoAmp(query)
    ensures var url := CutoutUrl(ra, dec, scale, width, height, opt, query);
            && url[..|CUTOUT_BASE|] == CUTOUT_BASE
            && Split(url[|CUTOUT_BASE|..], '&') == CutoutParams(ra, dec, scale, width, height, opt, query)
  {
    var ps := CutoutParams(ra, dec, scale, width, height, opt, query);
    CutoutUrlJoin(ra, dec, scale, width, height, opt, query);
    assert forall k :: 0 <= k < |ps| ==> '&' !in ps[k] by {
      CutoutParamsPlain(ra, dec, scale, width, height, opt, query);
    }
    SplitJoin(ps, '&');
  }

  lemma CutoutParamsPlain(ra: string, dec: string, scale: string, width: string, height: string,
                          opt: string, query: string)
    requires NoAmp(ra) && NoAmp(dec) && NoAmp(scale) && NoAmp(width) && NoAmp(height)
    requires NoAmp(opt) && NoAmp(query)
    ensures var ps := CutoutParams(ra, dec, scale, width, height, opt, query);
            forall k :: 0 <= k < |ps| ==> '&' !in ps[k]
  {
  }

  lemma KeyOf(k: string, v: string)
    requires '=' !in k
    ensures Key(k + "=" + v) == k
  {
    assert k + "=" + v == k + ("=" + v);
    IndexOfFirst(k, "=" + v, '=');
  }

  lemma FivePairsKeys(ra: string, dec: string, scale: string, width: string, height: string)
    ensures Keys(FivePairs(ra, dec, scale, width, height)) == ["ra", "dec", "scale", "width", "height"]
  {
    var ps := FivePairs(ra, dec, scale, width, height);
    KeyOf("ra", ra);
    assert ps[0] == "ra" + "=" + ra;
    KeyOf("dec", dec);
    assert ps[1] == "dec" + "=" + dec;
    KeyOf("scale", scale);
    assert ps[2] == "scale" + "=" + scale;
    KeyOf("width", width);
    assert ps[3] == "width" + "=" + width;
    KeyOf("height", height);
    assert ps[4] == "height" + "=" + height;
  }

  lemma OptPairsKeys(name: string, value: string)
    requires '=' !in name
    ensures Keys(OptPairs(name, value)) == if value != "" then [name] else []
  {
    if value != "" {
      KeyOf(name, value);
    }
  }

  lemma KeysAppend(a: seq<string>, b: seq<string>)
    ensures Keys(a + b) == Keys(a) + Keys(b)
  {
  }

  /** The parameter names the service receives: ra, dec, scale, width and
      height always, in that order; "opt" exactly when `opt` is non-empty
      and "query" exactly when `query` is non-empty, opt before query. */
  lemma CutoutUrlKeys(ra: string, dec: string, scale: string, width: string, height: string,
                      opt: string, query: string)
    requires NoAmp(ra) && NoAmp(dec) && NoAmp(scale) && NoAmp(width) && NoAmp(height)
    requires NoAmp(opt) && NoAmp(query)
    ensures var url := CutoutUrl(ra, dec, scale, width, height, opt, query);
            Keys(Split(url[|CUTOUT_BASE|..], '&'))
            == ["ra", "dec", "scale", "width", "height"]
               + (if opt != "" then ["opt"] else []) + (if query != "" then ["query"] else [])
  {
    CutoutUrlParams(ra, dec, scale, width, height, opt, query);
    CutoutParamsKeys(ra, dec, scale, width, height, opt, query);
  }

  lemma CutoutParamsKeys(ra: string, dec: string, scale: string, width: string, height: string,
                         opt: string, query: string)
    ensures Keys(CutoutParams(ra, dec, scale, width, height, opt, query))
            == ["ra", "dec", "scale", "width", "height"]
               + (if opt != "" then ["opt"] else []) + (if query != "" then ["query"] else [])
  {
    var five := FivePairs(ra, dec, scale, width, height);
    FivePairsKeys(ra, dec, scale, width, height);
    OptPairsKeys("opt", opt);
    OptPairsKeys("query", query);
    KeysAppend(five, OptPairs("opt", opt));
    KeysAppend(five + OptPairs("opt", opt), OptPairs("query", query));
  }

  // ---------------------------------------------------------------------
  // download_frame

  /** "https://data.sdss.org/sas/dr16/eboss/photoObj/frames/", written from
      the parts every release's address shares. */
  const SAS_DR := "https://data.sdss.org/sas/dr"
  const PHOTO_OBJ_DIR := "/eboss/photoObj/"
  const FRAME_BASE_DR16 := SAS_DR + "16" + PHOTO_OBJ_DIR + "frames/"
  const FR_TYPE_ERROR := "fr_type should be 'jpg' or 'fits'."

  /** "frame-{band}-{run zero-padded to 6}-{camcol}-{field zero-padded to 4}" */
  function FrameName(band: string, run: int, camcol: int, field: int): string
  {
    "frame-" + band + "-" + FrameNumbers(run, camcol, field)
  }

  /** The numbers of a frame name: "{run6}-{camcol}-{field4}". */
  function FrameNumbers(run: int, camcol: int, field: int): string
  {
    ZFill(IntStr(run), 6) + "-" + IntStr(camcol) + "-" + ZFill(IntStr(field), 4)
  }

  predicate NoDash(s: string) { '-' !in s }

  /** Cut at '-', a frame name gives back "frame", the band and the three
      numbers as written, as long as the band holds no '-' and the numbers
      are not negative. */
  lemma FrameNameSplit(band: string, run: int, camcol: int, field: int)
    requires NoDash(band) && run >= 0 && camcol >= 0 && field >= 0
    ensures Split(FrameName(band, run, camcol, field), '-')
            == ["frame", band, ZFill(IntStr(run), 6), IntStr(camcol), ZFill(IntStr(field), 4)]
  {
    var parts := ["frame", band, ZFill(IntStr(run), 6), IntStr(camcol), ZFill(IntStr(field), 4)];
    FrameNameJoin(band, run, camcol, field);
    ZFillUnsigned(IntStr(run), 6);
    ZFillUnsigned(IntStr(field), 4);
    forall k | 0 <= k < |parts|
      ensures '-' !in parts[k]
    {
    }
    SplitJoin(parts, '-');
  }

  lemma FrameNameJoin(band: string, run: int, camcol: int, field: int)
    ensures Join(["frame", band, ZFill(IntStr(run), 6), IntStr(camcol), ZFill(IntStr(field), 4)], "-")
            == FrameName(band, run, camcol, field)
  {
    DashFive("frame", band, ZFill(IntStr(run), 6), IntStr(camcol), ZFill(IntStr(field), 4));
    assert "frame-" == "frame" + "-";
  }

  lemma DashFive(a: string, b: string, c: string, d: string, e: string)
    ensures Join([a, b, c, d, e], "-") == a + "-" + b + "-" + (c + "-" + d + "-" + e)
  {
    JoinFive(a, b, c, d, e, "-");
  }

  /** What `download_frame` requests and writes: the URL, the file the
      download is saved to and the file left at the end (for a FITS frame
      the decompressed copy; the compressed one is removed). */
  datatype FrameFiles = FrameFiles(url: string, saved: string, kept: string)

  /** `download_frame(field, run, camcol, band, fr_type, path)` up to the
      transfers: rerun is fixed at 301, and a `fr_type` other than 'fits'
      or 'jpg' raises before anything is requested. */
  function DownloadFrame(field: int, run: int, camcol: int, band: string, frType: string := "jpg",
                         path: string := "")
    : (r: Result<FrameFiles>)
    ensures r.Success? <==> frType == "fits" || frType == "jpg"
    ensures r.Failure? ==> r.error == Raised(FR_TYPE_ERROR)
  {
    if frType != "fits" && frType != "jpg" then Failure(Raised(FR_TYPE_ERROR))
    else
      var filename := FrameName(band, run, camcol, field) + (if frType == "fits" then ".fits.bz2" else ".jpg");
      var url := FrameDir(FRAME_BASE_DR16, 301, run, camcol) + filename;
      var kept := if frType == "fits" then path + filename[..|filename| - 4] else path + filename;
      Success(FrameFiles(url, path + filename, kept))
  }

  /** The directory "<base><rerun>/<run>/<camcol>/" a frame is fetched from. */
  function FrameDir(base: string, rerun: int, run: int, camcol: int): string
  {
    base + IntStr(rerun) + "/" + IntStr(run) + "/" + IntStr(camcol) + "/"
  }

  /** The FITS frame is saved as "<path><name>.fits.bz2" and decompressed to
      "<path><name>.fits", the file that is kept: its name drops exactly
      ".bz2". The URL is the saved name in the rerun-301 directory of its
      run and camcol. */
  lemma DownloadFrameFits(field: int, run: int, camcol: int, band: string, path: string)
    ensures var name := FrameName(band, run, camcol, field);
            DownloadFrame(field, run, camcol, band, "fits", path)
            == Success(FrameFiles(FrameDir(FRAME_BASE_DR16, 301, run, camcol) + name + ".fits.bz2",
                                  path + name + ".fits.bz2", path + name + ".fits"))
  {
    FitsFiles(FrameDir(FRAME_BASE_DR16, 301, run, camcol), path, FrameName(band, run, camcol, field));
  }

  lemma FitsFiles(dir: string, path: string, name: string)
    ensures var f := name + ".fits.bz2";
            && f[..|f| - 4] == name + ".fits"
            && dir + f == dir + name + ".fits.bz2" && path + f == path + name + ".fits.bz2"
            && path + f[..|f| - 4] == path + name + ".fits"
  {
    var f := name + ".fits.bz2";
    assert ".fits.bz2" == ".fits" + ".bz2";
    assert f == (name + ".fits") + ".bz2";
  }

  /** The JPEG frame is saved and kept as "<path><name>.jpg", fetched from
      the same directory. */
  lemma DownloadFrameJpg(field: int, run: int, camcol: int, band: string, path: string)
    ensures var name := FrameName(band, run, camcol, field);
            DownloadFrame(field, run, camcol, band, "jpg", path)
            == Success(FrameFiles(FrameDir(FRAME_BASE_DR16, 301, run, camcol) + name + ".jpg",
                                  path + name + ".jpg", path + name + ".jpg"))
  {
    var name := FrameName(band, run, camcol, field);
    var j := name + ".jpg";
    var dir := FrameDir(FRAME_BASE_DR16, 301, run, camcol);
    assert dir + j == dir + name + ".jpg";
    assert path + j == path + name + ".jpg";
  }
}
