/** Predictor groups (`data/splits.py`): the typed canonical form of a cell, and when two rows
    fall into one group. */
module GroupEncoding {
  import opened Wrappers
  import opened CacheContracts

  // ----- decimal and hexadecimal text -----

  function Digit(n: nat): char
    requires n < 16
  {
    if n < 10 then '0' + n as char else 'a' + (n - 10) as char
  }

  /** `str(n)` for a natural number of any size. */
  function Decimal(n: nat): (s: string)
    ensures |s| > 0 && forall k :: 0 <= k < |s| ==> '0' <= s[k] <= '9'
  {
    if n < 10 then [Digit(n)] else Decimal(n / 10) + [Digit(n % 10)]
  }

  lemma {:induction false} DecimalIsInjective(m: nat, n: nat)
    requires Decimal(m) == Decimal(n)
    ensures m == n
  {
    var s, t := Decimal(m), Decimal(n);
    assert s[|s| - 1] == Digit(m % 10) && t[|t| - 1] == Digit(n % 10);
    if m >= 10 && n >= 10 {
      assert s[..|s| - 1] == Decimal(m / 10) && t[..|t| - 1] == Decimal(n / 10);
      DecimalIsInjective(m / 10, n / 10);
    }
  }

  /** `str(int(value))`. */
  function IntegerText(i: int): string {
    if i < 0 then "-" + Decimal(-i) else Decimal(i)
  }

  lemma IntegerTextIsInjective(i: int, j: int)
    requires IntegerText(i) == IntegerText(j)
    ensures i == j
  {
    assert IntegerText(i)[0] == '-' <==> i < 0;
    assert IntegerText(j)[0] == '-' <==> j < 0;
    if i < 0 && j < 0 {
      assert Decimal(-i) == IntegerText(i)[1..] == IntegerText(j)[1..] == Decimal(-j);
      DecimalIsInjective(-i, -j);
    } else if i >= 0 && j >= 0 {
      DecimalIsInjective(i, j);
    }
  }

  /** `width` hexadecimal digits of `n`, the last ones first dropped off the end. */
  function HexDigits(n: nat, width: nat): (s: string)
    ensures |s| == width
  {
    if width == 0 then "" else HexDigits(n / 16, width - 1) + [Digit(n % 16)]
  }

  function Pow16(k: nat): nat {
    if k == 0 then 1 else 16 * Pow16(k - 1)
  }

  lemma {:induction false} HexDigitsAreHex(n: nat, width: nat)
    ensures IsHex(HexDigits(n, width))
    ensures forall k :: 0 <= k < width ==> IsLowerHex(HexDigits(n, width)[k])
  {
    if width > 0 {
      HexDigitsAreHex(n / 16, width - 1);
      assert IsLowerHex(Digit(n % 16));
    }
  }

  lemma {:induction false} HexDigitsInjective(m: nat, n: nat, width: nat)
    requires m < Pow16(width) && n < Pow16(width)
    requires HexDigits(m, width) == HexDigits(n, width)
    ensures m == n
  {
    if width > 0 {
      var s, t := HexDigits(m, width), HexDigits(n, width);
      assert s[width - 1] == Digit(m % 16) && t[width - 1] == Digit(n % 16);
      assert s[..width - 1] == HexDigits(m / 16, width - 1) && t[..width - 1] == HexDigits(n / 16, width - 1);
      HexDigitsInjective(m / 16, n / 16, width - 1);
    }
  }

  /** `bytes.hex()`. */
  function BytesHex(b: Bytes): string {
    if b == [] then "" else HexDigits(b[0] as nat, 2) + BytesHex(b[1..])
  }

  lemma {:induction false} BytesHexIsInjective(b: Bytes, c: Bytes)
    requires BytesHex(b) == BytesHex(c)
    ensures b == c
  {
    if b != [] && c != [] {
      assert HexDigits(b[0] as nat, 2) == BytesHex(b)[..2] == BytesHex(c)[..2] == HexDigits(c[0] as nat, 2);
      assert Pow16(2) == 256 by { assert Pow16(1) == 16; }
      HexDigitsInjective(b[0] as nat, c[0] as nat, 2);
      assert BytesHex(b[1..]) == BytesHex(b)[2..] == BytesHex(c)[2..] == BytesHex(c[1..]);
      BytesHexIsInjective(b[1..], c[1..]);
      assert b == [b[0]] + b[1..] && c == [c[0]] + c[1..];
    }
  }

  // ----- doubles -----

  /** An IEEE double: `exponent` is the biased exponent field, `fraction` the 52 stored bits. */
  datatype Double = NaN | Infinite(negative: bool) | Finite(negative: bool, exponent: nat, fraction: nat)

  predicate ValidDouble(f: Double) {
    f.Finite? ==> f.exponent < 2047 && f.fraction < 0x10_0000_0000_0000
  }

  function ExponentText(e: int): string {
    if e < 0 then "-" + Decimal(-e) else "+" + Decimal(e)
  }

  lemma ExponentTextIsInjective(d: int, e: int)
    requires ExponentText(d) == ExponentText(e)
    ensures d == e
  {
    assert ExponentText(d)[0] == ExponentText(e)[0];
    if d < 0 {
      assert Decimal(-d) == ExponentText(d)[1..] == Decimal(-e);
      DecimalIsInjective(-d, -e);
    } else {
      assert Decimal(d) == ExponentText(d)[1..] == Decimal(e);
      DecimalIsInjective(d, e);
    }
  }

  /** The part of `float.hex()` after the sign, for a nonzero number. */
  function MagnitudeText(exponent: nat, fraction: nat): (s: string)
    ensures |s| >= 20
  {
    (if exponent == 0 then "0x0." else "0x1.") + HexDigits(fraction, 13) + "p" +
    ExponentText(if exponent == 0 then -1022 else exponent - 1023)
  }

  lemma MagnitudeTextIsInjective(e: nat, m: nat, e': nat, m': nat)
    requires m < 0x10_0000_0000_0000 && m' < 0x10_0000_0000_0000
    requires MagnitudeText(e, m) == MagnitudeText(e', m')
    ensures e == e' && m == m'
  {
    var s, s' := MagnitudeText(e, m), MagnitudeText(e', m');
    assert s[2] == s'[2];
    assert s[4..17] == HexDigits(m, 13) && s'[4..17] == HexDigits(m', 13);
    assert Pow16(13) == 0x10_0000_0000_0000 by {
      assert Pow16(2) == 256 && Pow16(4) == 65536 && Pow16(6) == 0x100_0000 && Pow16(8) == 0x1_0000_0000;
      assert Pow16(10) == 0x100_0000_0000 && Pow16(12) == 0x1_0000_0000_0000;
    }
    HexDigitsInjective(m, m', 13);
    assert s[18..] == ExponentText(if e == 0 then -1022 else e - 1023);
    assert s'[18..] == ExponentText(if e' == 0 then -1022 else e' - 1023);
    ExponentTextIsInjective(if e == 0 then -1022 else e - 1023, if e' == 0 then -1022 else e' - 1023);
  }

  /** The text a float that is not NaN gets: `+inf`, `-inf` or `float.hex()`. */
  function FloatText(f: Double): string
    requires !f.NaN?
  {
    match f
    case Infinite(negative) => if negative then "-inf" else "+inf"
    case Finite(negative, exponent, fraction) =>
      (if negative then "-" else "") +
      (if exponent == 0 && fraction == 0 then "0x0.0p+0" else MagnitudeText(exponent, fraction))
  }

  /** Distinct doubles print differently; in particular the two zeros do. */
  lemma FloatTextIsInjective(f: Double, g: Double)
    requires ValidDouble(f) && ValidDouble(g) && !f.NaN? && !g.NaN?
    requires FloatText(f) == FloatText(g)
    ensures f == g
  {
    if f.Finite? && g.Finite? {
      var zf, zg := f.exponent == 0 && f.fraction == 0, g.exponent == 0 && g.fraction == 0;
      var tf := if zf then "0x0.0p+0" else MagnitudeText(f.exponent, f.fraction);
      var tg := if zg then "0x0.0p+0" else MagnitudeText(g.exponent, g.fraction);
      assert tf[0] == '0' && tg[0] == '0';
      assert FloatText(f)[0] == (if f.negative then '-' else '0');
      assert FloatText(g)[0] == (if g.negative then '-' else '0');
      assert tf == if f.negative then FloatText(f)[1..] else FloatText(f);
      assert tg == if g.negative then FloatText(g)[1..] else FloatText(g);
      if !zf && !zg {
        MagnitudeTextIsInjective(f.exponent, f.fraction, g.exponent, g.fraction);
      }
    }
  }

  // ----- cells -----

  /** A cell as Python sees it. `Other` is any value of another class, known by its class name
      and its `repr`. */
  datatype Cell =
    | NoneValue
    | NotAvailable      // pandas.NA
    | NotATime          // pandas.NaT
    | BoolCell(b: bool)
    | IntegerCell(i: int)
    | FloatCell(f: Double)
    | TimestampCell(iso: string)
    | BytesCell(bytes: Bytes)
    | StringCell(s: string)
    | Other(moduleName: string, className: string, repr: string)

  predicate ValidCell(v: Cell) {
    v.FloatCell? ==> ValidDouble(v.f)
  }

  predicate IsMissing(v: Cell) {
    v.NoneValue? || v.NotAvailable? || v.NotATime? || v == FloatCell(NaN)
  }

  datatype Json = JsonNull | JsonBool(b: bool) | JsonString(s: string)
  datatype CanonicalCell = CanonicalCell(dtype: string, tag: string, value: Json)

  /** `_canonical_scalar`. */
  function CanonicalScalar(v: Cell, dtype: string): CanonicalCell {
    if IsMissing(v) then CanonicalCell(dtype, "missing", JsonNull)
    else
      match v
      case BoolCell(b) => CanonicalCell(dtype, "bool", JsonBool(b))
      case IntegerCell(i) => CanonicalCell(dtype, "integer", JsonString(IntegerText(i)))
      case FloatCell(f) => CanonicalCell(dtype, "float", JsonString(FloatText(f)))
      case TimestampCell(iso) => CanonicalCell(dtype, "timestamp", JsonString(iso))
      case BytesCell(b) => CanonicalCell(dtype, "bytes", JsonString(BytesHex(b)))
      case StringCell(s) => CanonicalCell(dtype, "string", JsonString(s))
      case Other(m, c, repr) => CanonicalCell(dtype, m + "." + c, JsonString(repr))
      case _ => CanonicalCell(dtype, "missing", JsonNull)
  }

  /** Typed equality: all kinds of missing are one; otherwise same kind and same value. */
  predicate TypedEqual(v: Cell, w: Cell) {
    if IsMissing(v) || IsMissing(w) then IsMissing(v) && IsMissing(w)
    else if v.Other? && w.Other? then v.moduleName + "." + v.className == w.moduleName + "." + w.className && v.repr == w.repr
    else v == w
  }

  lemma ClassNameIsNoTag(m: string, c: string)
    ensures m + "." + c !in {"missing", "bool", "integer", "float", "timestamp", "bytes", "string"}
  {
    assert (m + "." + c)[|m|] == '.';
    var tags := ["missing", "bool", "integer", "float", "timestamp", "bytes", "string"];
    forall k, j | 0 <= k < |tags| && 0 <= j < |tags[k]|
      ensures tags[k][j] != '.'
    {
    }
    assert forall t :: t in {"missing", "bool", "integer", "float", "timestamp", "bytes", "string"} ==> t in tags;
  }

  /** Two cells of a column get one canonical form exactly when they are equal as typed values. */
  lemma CanonicalScalarSeparates(v: Cell, w: Cell, dtype: string)
    requires ValidCell(v) && ValidCell(w)
    ensures CanonicalScalar(v, dtype) == CanonicalScalar(w, dtype) <==> TypedEqual(v, w)
  {
    if v.Other? {
      ClassNameIsNoTag(v.moduleName, v.className);
    }
    if w.Other? {
      ClassNameIsNoTag(w.moduleName, w.className);
    }
    hide FloatText, IntegerText, BytesHex;
    if CanonicalScalar(v, dtype) == CanonicalScalar(w, dtype) && !IsMissing(v) && !IsMissing(w) {
      match (v, w)
      case (IntegerCell(i), IntegerCell(j)) => IntegerTextIsInjective(i, j);
      case (FloatCell(f), FloatCell(g)) => FloatTextIsInjective(f, g);
      case (BytesCell(b), BytesCell(c)) => BytesHexIsInjective(b, c);
      case _ =>
    }
  }

  /** The same spelled out: missing values are `None`, `NA`, `NaT` and NaN, and they are all one;
      any other value is one with itself alone, so a flag is no number, a whole float no integer,
      and the two zeros differ; values of unlisted classes are told by class name and `repr`.
      Different pandas dtypes keep all values apart. */
  lemma SameFormIff(v: Cell, w: Cell, dtype: string, dtype': string)
    requires ValidCell(v) && ValidCell(w)
    ensures CanonicalScalar(v, dtype) == CanonicalScalar(w, dtype') <==>
            dtype == dtype'
            && (|| v == w
                || (v in {NoneValue, NotAvailable, NotATime, FloatCell(NaN)} && w in {NoneValue, NotAvailable, NotATime, FloatCell(NaN)})
                || (v.Other? && w.Other? && v.moduleName + "." + v.className == w.moduleName + "." + w.className && v.repr == w.repr))
  {
    CanonicalScalarSeparates(v, w, dtype);
    hide FloatText, IntegerText, BytesHex;
  }

  // ----- rows -----

  type Row = map<string, Cell>
  datatype CanonicalColumn = CanonicalColumn(name: string, value: CanonicalCell)
  type Hasher = seq<CanonicalColumn> -> string

  /** `sha256_canonical_json` separates the canonical rows at hand. */
  ghost predicate CollisionFreeHash(hash: Hasher, payloads: set<seq<CanonicalColumn>>) {
    forall a, b :: a in payloads && b in payloads && hash(a) == hash(b) ==> a == b
  }

  /** The columns of `features` that are neither row IDs nor targets, in frame order. */
  function PredictorColumns(columns: seq<string>): (r: seq<string>)
    ensures forall c :: c in r <==> c in columns && c !in ExcludedColumns
  {
    if columns == [] then []
    else (if columns[0] in ExcludedColumns then [] else [columns[0]]) + PredictorColumns(columns[1..])
  }

  const ExcludedColumns := {"__sg_row_id", "__sg_group_id", "target_label", "target_code"}

  predicate CoversColumns(row: Row, columns: seq<string>) {
    forall c :: c in columns ==> c in row && ValidCell(row[c])
  }

  function CanonicalRow(row: Row, columns: seq<string>, dtypes: map<string, string>): (r: seq<CanonicalColumn>)
    requires CoversColumns(row, columns) && forall c :: c in columns ==> c in dtypes
    ensures |r| == |columns|
    ensures forall k :: 0 <= k < |r| ==> r[k] == CanonicalColumn(columns[k], CanonicalScalar(row[columns[k]], dtypes[columns[k]]))
  {
    if columns == [] then []
    else
      assert columns[0] in columns && forall c :: c in columns[1..] ==> c in columns;
      [CanonicalColumn(columns[0], CanonicalScalar(row[columns[0]], dtypes[columns[0]]))] + CanonicalRow(row, columns[1..], dtypes)
  }

  /** `canonical_predictor_vector`. */
  function PredictorGroupId(hash: Hasher, row: Row, columns: seq<string>, dtypes: map<string, string>): string
    requires CoversColumns(row, columns) && forall c :: c in columns ==> c in dtypes
  {
    hash(CanonicalRow(row, columns, dtypes))
  }

  /** Two rows of a frame have one canonical form exactly when they agree, as typed values, in
      every predictor column. */
  lemma CanonicalRowSeparates(r1: Row, r2: Row, columns: seq<string>, dtypes: map<string, string>)
    requires CoversColumns(r1, columns) && CoversColumns(r2, columns) && forall c :: c in columns ==> c in dtypes
    ensures CanonicalRow(r1, columns, dtypes) == CanonicalRow(r2, columns, dtypes) <==>
            forall c :: c in columns ==> TypedEqual(r1[c], r2[c])
  {
    hide CanonicalScalar, TypedEqual, ValidCell;
    var a, b := CanonicalRow(r1, columns, dtypes), CanonicalRow(r2, columns, dtypes);
    forall c | c in columns
      ensures CanonicalScalar(r1[c], dtypes[c]) == CanonicalScalar(r2[c], dtypes[c]) <==> TypedEqual(r1[c], r2[c])
    {
      CanonicalScalarSeparates(r1[c], r2[c], dtypes[c]);
    }
    if a == b {
      forall c | c in columns
        ensures TypedEqual(r1[c], r2[c])
      {
        var k :| 0 <= k < |columns| && columns[k] == c;
        assert a[k] == b[k];
      }
    }
    if forall c :: c in columns ==> TypedEqual(r1[c], r2[c]) {
      forall k | 0 <= k < |columns|
        ensures a[k] == b[k]
      {
        assert columns[k] in columns;
      }
      assert a == b;
    }
  }

  /** So two rows share a group exactly when they agree in every predictor column; nothing else
      about the rows matters. */
  lemma SameGroupIffSamePredictors(hash: Hasher, payloads: set<seq<CanonicalColumn>>, r1: Row, r2: Row,
                                   frameColumns: seq<string>, dtypes: map<string, string>)
    requires CollisionFreeHash(hash, payloads)
    requires var columns := PredictorColumns(frameColumns);
             && CoversColumns(r1, columns) && CoversColumns(r2, columns) && (forall c :: c in columns ==> c in dtypes)
             && CanonicalRow(r1, columns, dtypes) in payloads && CanonicalRow(r2, columns, dtypes) in payloads
    ensures var columns := PredictorColumns(frameColumns);
            PredictorGroupId(hash, r1, columns, dtypes) == PredictorGroupId(hash, r2, columns, dtypes) <==>
            forall c :: c in columns ==> TypedEqual(r1[c], r2[c])
  {
    hide CanonicalRow, CoversColumns, TypedEqual, PredictorColumns;
    CanonicalRowSeparates(r1, r2, PredictorColumns(frameColumns), dtypes);
  }
}
