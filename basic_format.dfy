// tomviz's BasicFormatWidget: the file-name pattern chooser for acquisition
// images named <prefix><sign><angle><suffix>.<extension>. A choice of format
// and extension picks five default fields; the fields are turned into a Qt
// regular expression and a Python one. Matching a file name against the Qt
// regular expression is done by the regex engine, which is not part of this
// model; what the widget does with the engine's captures is.

module BasicFormat {
  import opened Wrappers
  import Text
  import opened RegexText
  import opened QStringArg

  datatype RegexFormat = NegativePositive | PlusMinus | Custom
  datatype RegexExtension = Dm3 | Tiff

  /** The order of the format and extension combo boxes. */
  const FormatOrder: seq<RegexFormat> := [NegativePositive, PlusMinus, Custom]
  const ExtensionOrder: seq<RegexExtension> := [Dm3, Tiff]

  /** makeDefaultRegexParams: prefix, negative sign, positive sign, suffix, extension. */
  function DefaultParams(format: RegexFormat, extension: RegexExtension): seq<string>
  {
    var signs := if format == PlusMinus then ["*", "-", "+", "*"] else ["*", "n", "p", "*"];
    signs + [if format == Custom then "*" else if extension == Dm3 then "dm3" else "tif[f]?"]
  }

  /** makeDefaultFileNames: an example name per format and extension; Custom has the empty name. */
  function DefaultFileName(format: RegexFormat, extension: RegexExtension): string
  {
    var base := match format
      case NegativePositive => "Prefix_n12.3_Suffix"
      case PlusMinus => "Prefix_+12.3_Suffix"
      case Custom => "";
    var ext := if format == Custom then "" else if extension == Dm3 then ".dm3" else ".tiff";
    base + ext
  }

  /** Every default parameter list has the five fields updateRegex requires, with two distinct non-blank signs. */
  lemma DefaultParamsWellFormed(format: RegexFormat, extension: RegexExtension)
    ensures |DefaultParams(format, extension)| == 5
    ensures !Text.IsBlank(DefaultParams(format, extension)[1]) && !Text.IsBlank(DefaultParams(format, extension)[2])
    ensures DefaultParams(format, extension)[1] != DefaultParams(format, extension)[2]
    ensures format == PlusMinus <==> DefaultParams(format, extension)[1..3] == ["-", "+"]
    ensures format == Custom ==> DefaultParams(format, extension)[4] == "*"
  {
    var p := DefaultParams(format, extension);
    assert p[1][0] != ' ' && p[2][0] != ' ';
  }

  /** The combo boxes list every format and extension once, so their order covers the enums. */
  lemma OrdersCoverEnums(format: RegexFormat, extension: RegexExtension)
    ensures format in FormatOrder && extension in ExtensionOrder
  {
  }

  /** The empty name is a default name (the Custom one); the named examples are too. */
  lemma DefaultFileNames()
    ensures DefaultFileName(Custom, Dm3) == "" && DefaultFileName(Custom, Tiff) == ""
    ensures DefaultFileName(NegativePositive, Tiff) == "Prefix_n12.3_Suffix.tiff"
    ensures DefaultFileName(PlusMinus, Dm3) == "Prefix_+12.3_Suffix.dm3"
  {
  }

  // ---- buildFileRegex ----

  /** A blank prefix or suffix matches anything. */
  function OrAnything(field: string): string
  {
    if Text.Trim(field) == "" then "*" else field
  }

  /** A blank extension, or "*", matches any extension. */
  function ExtensionPattern(extension: string): string
  {
    if Text.Trim(extension) == "" || Text.Trim(extension) == "*" then ".+" else extension
  }

  function OrDefault(sign: string, default: string): string
  {
    if Text.Trim(sign) == "" then default else sign
  }

  /** The pieces of a pattern, written one after the other. */
  function Concat(pieces: seq<string>): string
  {
    if |pieces| == 0 then "" else pieces[0] + Concat(pieces[1..])
  }

  /** ^P((N|Q)(\d+(\.\d+)?))S(\.E)$ with the sign characters escaped. */
  function Template(prefix: string, negChar: string, posChar: string, suffix: string, extension: string): string
  {
    Concat(TemplatePieces(prefix, negChar, posChar, suffix, extension))
  }

  function TemplatePieces(prefix: string, negChar: string, posChar: string, suffix: string, extension: string): seq<string>
  {
    Pieces(prefix, Escape(negChar), Escape(posChar), suffix, extension)
  }

  /** The eleven pieces of ^a1((a2|a3)(\d+(\.\d+)?))a4(\.a5)$: fixed text and five fields. */
  function Pieces(a1: string, a2: string, a3: string, a4: string, a5: string): seq<string>
  {
    ["^", a1, "((", a2, "|", a3, NumberGroup, a4, "(\\.", a5, ")$"]
  }

  datatype Regexes = Regexes(qt: string, python: string, negChar: string, posChar: string)

  /** What buildFileRegex stores: the Qt and Python patterns and the sign characters. */
  function BuiltRegexes(prefix: string, negChar: string, posChar: string, suffix: string, extension: string): Regexes
  {
    var p := OrAnything(prefix);
    var s := OrAnything(suffix);
    var e := ExtensionPattern(extension);
    var n := OrDefault(negChar, "n");
    var q := OrDefault(posChar, "p");
    Regexes(Template(Expand(p, ".*"), n, q, Expand(s, ".*"), e),
            Template(Expand(p, ".*?"), n, q, Expand(s, ".*?"), e),
            n, q)
  }

  /**
   * The string work of buildFileRegex: blank fields take their defaults,
   * and each `*` becomes `.*` (greedy, for Qt) or `.*?` (lazy, for Python).
   */
  method BuildRegexes(prefix: string, negative: string, positive: string, suffix: string, ext: string)
    returns (r: Regexes)
    ensures r == BuiltRegexes(prefix, negative, positive, suffix, ext)
  {
    var p, s, e, n, q := prefix, suffix, ext, negative, positive;
    if Text.Trim(p) == "" {
      p := "*";
    }
    assert p == OrAnything(prefix);
    var pythonPrefix := p;
    p := ReplaceAll(p, "*", ".*");
    pythonPrefix := ReplaceAll(pythonPrefix, "*", ".*?");
    if Text.Trim(s) == "" {
      s := "*";
    }
    assert s == OrAnything(suffix);
    var pythonSuffix := s;
    s := ReplaceAll(s, "*", ".*");
    pythonSuffix := ReplaceAll(pythonSuffix, "*", ".*?");
    if Text.Trim(e) == "" || Text.Trim(e) == "*" {
      e := ".+";
    }
    assert e == ExtensionPattern(ext);
    if Text.Trim(n) == "" {
      n := "n";
    }
    if Text.Trim(q) == "" {
      q := "p";
    }
    assert n == OrDefault(negative, "n") && q == OrDefault(positive, "p");
    r := Regexes(Template(p, n, q, s, e), Template(pythonPrefix, n, q, pythonSuffix, e), n, q);
  }

  // ---- the template as the chained QString::arg calls fill it ----

  /** The place markers of the template's five fields, in order. */
  const Slots: seq<string> := ["%1", "%2", "%3", "%4", "%5"]

  /**
   * The format string buildFileRegex fills, ^%1((%2|%3)(\d+(\.\d+)?))%4(\.%5)$:
   * the template with the five markers as its fields.
   */
  const Skeleton: string := Concat(PiecesOf(Slots))

  function PiecesOf(args: seq<string>): seq<string>
    requires |args| == 5
  {
    Pieces(args[0], args[1], args[2], args[3], args[4])
  }

  /**
   * buildFileRegex as written: the skeleton filled by five chained
   * QString::arg calls, each of which replaces the lowest marker left,
   * including a marker that an earlier field brought in.
   */
  function ChainedTemplate(prefix: string, negChar: string, posChar: string, suffix: string, extension: string): string
  {
    ArgChain(Skeleton, [prefix, Escape(negChar), Escape(posChar), suffix, extension])
  }

  /** s.arg(args[0]).arg(args[1])...: each call works on what the previous one returned. */
  function ArgChain(s: string, args: seq<string>): string
    decreases |args|
  {
    if |args| == 0 then s else ArgChain(Arg(s, args[0]), args[1..])
  }

  /** What buildFileRegex as written stores: BuiltRegexes with the chained fill. */
  function BuiltRegexesAsWritten(prefix: string, negChar: string, posChar: string, suffix: string, extension: string): Regexes
  {
    var p := OrAnything(prefix);
    var s := OrAnything(suffix);
    var e := ExtensionPattern(extension);
    var n := OrDefault(negChar, "n");
    var q := OrDefault(posChar, "p");
    Regexes(ChainedTemplate(Expand(p, ".*"), n, q, Expand(s, ".*"), e),
            ChainedTemplate(Expand(p, ".*?"), n, q, Expand(s, ".*?"), e),
            n, q)
  }

  lemma ConcatStep(ps: seq<string>, i: nat)
    requires i < |ps|
    ensures Concat(ps[i..]) == ps[i] + Concat(ps[i + 1..])
  {
    assert ps[i..][1..] == ps[i + 1..];
  }

  /** The pieces, joined, spell out the template text. */
  lemma PiecesText(a1: string, a2: string, a3: string, a4: string, a5: string)
    ensures Concat(Pieces(a1, a2, a3, a4, a5))
      == "^" + (a1 + ("((" + (a2 + ("|" + (a3 + (NumberGroup + (a4 + ("(\\." + (a5 + ")$")))))))))
  {
    var ps := Pieces(a1, a2, a3, a4, a5);
    var t10 := ")$";
    var t8 := "(\\." + (a5 + t10);
    var t6 := NumberGroup + (a4 + t8);
    var t4 := "|" + (a3 + t6);
    var t2 := "((" + (a2 + t4);
    assert Concat(ps[10..]) == t10 by { ConcatStep(ps, 10); assert ps[11..] == []; }
    assert Concat(ps[8..]) == t8 by { ConcatStep(ps, 9); ConcatStep(ps, 8); }
    assert Concat(ps[6..]) == t6 by { ConcatStep(ps, 7); ConcatStep(ps, 6); }
    assert Concat(ps[4..]) == t4 by { ConcatStep(ps, 5); ConcatStep(ps, 4); }
    assert Concat(ps[2..]) == t2 by { ConcatStep(ps, 3); ConcatStep(ps, 2); }
    ConcatStep(ps, 1);
    ConcatStep(ps, 0);
    assert ps[0..] == ps;
  }

  /** The fixed text of the template holds no '%'. */
  lemma FixedTextHasNoPercent()
    ensures Text.NotIn('%', "^") && Text.NotIn('%', "((") && Text.NotIn('%', "|")
    ensures Text.NotIn('%', NumberGroup) && Text.NotIn('%', "(\\.") && Text.NotIn('%', ")$")
  {
    forall i | 0 <= i < |NumberGroup| ensures NumberGroup[i] != '%' {
    }
  }

  /** Marker i + 1 is the only marker of Slots[i]. */
  lemma SlotMarker(i: nat, n: nat, a: string)
    requires i < 5
    ensures Lowest(Slots[i]) == Some(i + 1)
    ensures ReplaceMarker(Slots[i], n, a) == if n == i + 1 then a else Slots[i]
  {
    var s := Slots[i];
    assert |s| == 2 && s[0] == '%' && IsDigit(s[1]) && DigitValue(s[1]) == i + 1;
    assert MarkerAt(s) == Some(((i + 1) as nat, 2 as nat));
    assert s[2..] == [] && s[..2] == s;
  }

  lemma {:induction false} LowestOfPiecesBound(pieces: seq<string>, m: nat)
    requires forall k :: 0 <= k < |pieces| && Lowest(pieces[k]).Some? ==> m <= Lowest(pieces[k]).value
    ensures LowestOfPieces(pieces).None? || m <= LowestOfPieces(pieces).value
    decreases |pieces|
  {
    if |pieces| > 0 {
      LowestOfPiecesBound(pieces[1..], m);
    }
  }

  /** The lowest marker of all pieces, scanning them one after the other. */
  function LowestOfPieces(pieces: seq<string>): Option<nat>
  {
    if |pieces| == 0 then None else Lower(Lowest(pieces[0]), LowestOfPieces(pieces[1..]))
  }

  lemma {:induction false} LowestOfPiecesIs(pieces: seq<string>, m: nat, w: nat)
    requires w < |pieces| && Lowest(pieces[w]) == Some(m)
    requires forall k :: 0 <= k < |pieces| && Lowest(pieces[k]).Some? ==> m <= Lowest(pieces[k]).value
    ensures LowestOfPieces(pieces) == Some(m)
    decreases w
  {
    if w == 0 {
      LowestOfPiecesBound(pieces[1..], m);
    } else {
      LowestOfPiecesIs(pieces[1..], m, w - 1);
    }
  }

  /** Pieces joined at seams are scanned piece by piece. */
  lemma {:induction false} ConcatScan(pieces: seq<string>, n: nat, a: string)
    requires forall k :: 0 <= k < |pieces| ==> |pieces[k]| > 0
    requires forall k :: 0 <= k < |pieces| - 1 ==> Seam(pieces[k], pieces[k + 1])
    ensures Lowest(Concat(pieces)) == LowestOfPieces(pieces)
    ensures ReplaceMarker(Concat(pieces), n, a)
      == Concat(seq(|pieces|, k requires 0 <= k < |pieces| => ReplaceMarker(pieces[k], n, a)))
    decreases |pieces|
  {
    if |pieces| > 0 {
      var rest := pieces[1..];
      ConcatScan(rest, n, a);
      if |rest| > 0 {
        assert Seam(pieces[0], rest[0]);
        assert Concat(rest) == rest[0] + Concat(rest[1..]);
      }
      ScanSeam(pieces[0], Concat(rest), n, a);
      var r := seq(|pieces|, k requires 0 <= k < |pieces| => ReplaceMarker(pieces[k], n, a));
      assert r[1..] == seq(|rest|, k requires 0 <= k < |rest| => ReplaceMarker(rest[k], n, a));
    }
  }

  /** The template's pieces never let a marker run across a seam. */
  lemma PiecesSeams(args: seq<string>)
    requires |args| == 5
    ensures var pieces := PiecesOf(args);
      forall k :: 0 <= k < |pieces| - 1 ==> Seam(pieces[k], pieces[k + 1])
  {
    var pieces := PiecesOf(args);
    FixedTextHasNoPercent();
    forall k | 0 <= k < |pieces| - 1
      ensures Seam(pieces[k], pieces[k + 1])
    {
      if k % 2 == 1 {
        assert pieces[k + 1][0] in "(|)";
      }
    }
  }

  /** Odd pieces are the fields, even pieces the fixed text, which holds no '%'. */
  lemma PieceAt(args: seq<string>, other: seq<string>, j: nat)
    requires |args| == 5 && |other| == 5 && j < 11
    ensures j % 2 == 1 ==> PiecesOf(args)[j] == args[j / 2]
    ensures j % 2 == 0 ==> PiecesOf(args)[j] == PiecesOf(other)[j] && Text.NotIn('%', PiecesOf(args)[j])
  {
    FixedTextHasNoPercent();
  }

  /** What each piece holds while the fields before slot k are filled and those from k on are still markers. */
  lemma FillingPiece(args: seq<string>, k: nat, a: string, j: nat)
    requires |args| == 5 && k < 5 && j < 11
    requires forall i :: 0 <= i < k ==> |args[i]| > 0 && Lowest(args[i]).None?
    requires forall i :: k <= i < 5 ==> args[i] == Slots[i]
    ensures var piece := PiecesOf(args)[j];
      |piece| > 0 && (Lowest(piece).None? || k + 1 <= Lowest(piece).value)
      && ReplaceMarker(piece, k + 1, a) == PiecesOf(args[k := a])[j]
    ensures j == 2 * k + 1 ==> Lowest(PiecesOf(args)[j]) == Some(k + 1)
  {
    var piece := PiecesOf(args)[j];
    var filled := args[k := a];
    var target := PiecesOf(filled)[j];
    if j % 2 == 0 {
      assert piece == target && Text.NotIn('%', piece) && |piece| > 0 by { PieceAt(args, filled, j); }
      NoPercentNoMarker(piece);
      NoMarkerUnchanged(piece, k + 1, a);
    } else {
      var i := j / 2;
      assert piece == args[i] && target == filled[i] by {
        PieceAt(args, filled, j);
        PieceAt(filled, args, j);
      }
      if i < k {
        assert filled[i] == args[i];
        NoMarkerUnchanged(piece, k + 1, a);
      } else {
        assert piece == Slots[i];
        SlotMarker(i, k + 1, a);
      }
    }
  }

  /** One chained arg call fills slot k with a. */
  lemma FillSlot(args: seq<string>, k: nat, a: string)
    requires |args| == 5 && k < 5 && |a| > 0
    requires forall i :: 0 <= i < k ==> |args[i]| > 0 && Lowest(args[i]).None?
    requires forall i :: k <= i < 5 ==> args[i] == Slots[i]
    ensures Arg(Concat(PiecesOf(args)), a) == Concat(PiecesOf(args[k := a]))
  {
    var pieces := PiecesOf(args);
    var target := PiecesOf(args[k := a]);
    PiecesSeams(args);
    forall j | 0 <= j < 11
      ensures |pieces[j]| > 0 && (Lowest(pieces[j]).None? || k + 1 <= Lowest(pieces[j]).value)
      ensures ReplaceMarker(pieces[j], k + 1, a) == target[j]
    {
      FillingPiece(args, k, a, j);
    }
    FillingPiece(args, k, a, 2 * k + 1);
    ReplaceLowestPiece(pieces, target, k + 1, 2 * k + 1, a);
  }

  /**
   * Pieces joined at seams, the lowest marker m found in piece w: arg
   * replaces m piece by piece.
   */
  lemma ReplaceLowestPiece(pieces: seq<string>, target: seq<string>, m: nat, w: nat, a: string)
    requires |pieces| == |target| && w < |pieces| && Lowest(pieces[w]) == Some(m)
    requires forall j :: 0 <= j < |pieces| ==> |pieces[j]| > 0
    requires forall j :: 0 <= j < |pieces| - 1 ==> Seam(pieces[j], pieces[j + 1])
    requires forall j :: 0 <= j < |pieces| && Lowest(pieces[j]).Some? ==> m <= Lowest(pieces[j]).value
    requires forall j :: 0 <= j < |pieces| ==> ReplaceMarker(pieces[j], m, a) == target[j]
    ensures Arg(Concat(pieces), a) == Concat(target)
  {
    ConcatScan(pieces, m, a);
    LowestOfPiecesIs(pieces, m, w);
    assert seq(|pieces|, j requires 0 <= j < |pieces| => ReplaceMarker(pieces[j], m, a)) == target;
  }

  /** The template's fields once the chained calls have filled the first k of them. */
  function Filled(fields: seq<string>, k: nat): seq<string>
    requires |fields| == 5 && k <= 5
  {
    fields[..k] + Slots[k..]
  }

  lemma FillNext(fields: seq<string>, k: nat)
    requires |fields| == 5 && k < 5 && |fields[k]| > 0
    requires forall i :: 0 <= i < k ==> |fields[i]| > 0 && Lowest(fields[i]).None?
    ensures Arg(Concat(PiecesOf(Filled(fields, k))), fields[k]) == Concat(PiecesOf(Filled(fields, k + 1)))
  {
    FillSlot(Filled(fields, k), k, fields[k]);
    assert Filled(fields, k)[k := fields[k]] == Filled(fields, k + 1);
  }

  /** The chained calls from slot k on fill the remaining slots one by one. */
  lemma {:induction false} FillFrom(fields: seq<string>, k: nat)
    requires |fields| == 5 && k <= 5
    requires forall i :: 0 <= i < 5 ==> |fields[i]| > 0
    requires forall i :: 0 <= i < 4 ==> Lowest(fields[i]).None?
    ensures ArgChain(Concat(PiecesOf(Filled(fields, k))), fields[k..]) == Concat(PiecesOf(fields))
    decreases 5 - k
  {
    if k == 5 {
      assert Filled(fields, 5) == fields;
    } else {
      FillNext(fields, k);
      FillFrom(fields, k + 1);
      assert fields[k..][1..] == fields[k + 1..];
    }
  }

  /** Fields without markers: the chained calls fill the five slots as a single pass does. */
  lemma ChainedWithoutMarkers(p: string, n: string, q: string, s: string, e: string)
    requires |p| > 0 && |n| > 0 && |q| > 0 && |s| > 0 && |e| > 0
    requires Lowest(p).None? && Lowest(Escape(n)).None? && Lowest(Escape(q)).None? && Lowest(s).None?
    ensures ChainedTemplate(p, n, q, s, e) == Template(p, n, q, s, e)
  {
    var fields := [p, Escape(n), Escape(q), s, e];
    assert Filled(fields, 0) == Slots;
    FillFrom(fields, 0);
    assert fields[0..] == fields;
  }



  /** Replacing '*' by a wildcard without '%' brings no '%' in, and keeps a non-empty field non-empty. */
  lemma {:induction false} ExpandWithoutPercent(field: string, wildcard: string)
    requires Text.NotIn('%', field) && Text.NotIn('%', wildcard) && |wildcard| > 0
    ensures Text.NotIn('%', Expand(field, wildcard))
    ensures |field| > 0 ==> |Expand(field, wildcard)| > 0
    decreases |field|
  {
    if |field| > 0 {
      ExpandHead(field, wildcard);
      assert Text.NotIn('%', field[1..]);
      ExpandWithoutPercent(field[1..], wildcard);
    }
  }

  /** Escaping adds backslashes only. */
  lemma {:induction false} EscapeWithoutPercent(s: string)
    requires Text.NotIn('%', s)
    ensures Text.NotIn('%', Escape(s))
    decreases |s|
  {
    if |s| > 0 {
      assert Text.NotIn('%', s[1..]);
      EscapeWithoutPercent(s[1..]);
    }
  }

  /** A field that buildFileRegex fills in: never empty, and free of '%' when the input is. */
  lemma FilledFields(field: string)
    ensures |OrAnything(field)| > 0 && |ExtensionPattern(field)| > 0
    ensures |OrDefault(field, "n")| > 0 && |OrDefault(field, "p")| > 0
    ensures Text.NotIn('%', field) ==> Text.NotIn('%', OrAnything(field))
    ensures Text.NotIn('%', field) ==> Text.NotIn('%', OrDefault(field, "n")) && Text.NotIn('%', OrDefault(field, "p"))
  {
    assert Text.Trim("") == "";
  }

  lemma ChainedFieldsWithoutPercent(field: string, wildcard: string)
    requires Text.NotIn('%', field) && wildcard in {".*", ".*?"}
    ensures var f := Expand(OrAnything(field), wildcard); |f| > 0 && Lowest(f).None?
  {
    FilledFields(field);
    ExpandWithoutPercent(OrAnything(field), wildcard);
    NoPercentNoMarker(Expand(OrAnything(field), wildcard));
  }

  lemma ChainedSignWithoutPercent(sign: string, default: string)
    requires Text.NotIn('%', sign) && default in {"n", "p"}
    ensures var f := Escape(OrDefault(sign, default)); |f| > 0 && Lowest(f).None?
  {
    FilledFields(sign);
    EscapeWithoutPercent(OrDefault(sign, default));
    NoPercentNoMarker(Escape(OrDefault(sign, default)));
  }

  /**
   * When no field but the extension holds a '%', the chained calls build
   * the same patterns as the single-pass template.
   */
  lemma AsWrittenAgreesWithoutPercent(prefix: string, negChar: string, posChar: string, suffix: string, extension: string)
    requires Text.NotIn('%', prefix) && Text.NotIn('%', negChar) && Text.NotIn('%', posChar) && Text.NotIn('%', suffix)
    ensures BuiltRegexesAsWritten(prefix, negChar, posChar, suffix, extension)
      == BuiltRegexes(prefix, negChar, posChar, suffix, extension)
  {
    var e := ExtensionPattern(extension);
    var n, q := OrDefault(negChar, "n"), OrDefault(posChar, "p");
    FilledFields(extension);
    ChainedSignWithoutPercent(negChar, "n");
    ChainedSignWithoutPercent(posChar, "p");
    ChainedFieldsWithoutPercent(prefix, ".*");
    ChainedFieldsWithoutPercent(suffix, ".*");
    ChainedFieldsWithoutPercent(prefix, ".*?");
    ChainedFieldsWithoutPercent(suffix, ".*?");
    ChainedWithoutMarkers(Expand(OrAnything(prefix), ".*"), n, q, Expand(OrAnything(suffix), ".*"), e);
    ChainedWithoutMarkers(Expand(OrAnything(prefix), ".*?"), n, q, Expand(OrAnything(suffix), ".*?"), e);
  }

  /** The second arg call when the prefix ends in "%2": that marker is filled together with slot 2. */
  lemma PrefixMarkerStep(a: string, fields: seq<string>)
    requires |fields| == 5 && fields[0] == a + "%2" && Text.NotIn('%', a) && |fields[1]| > 0
    ensures Arg(Concat(PiecesOf(Filled(fields, 1))), fields[1])
      == Concat(PiecesOf(Filled(fields[0 := a + fields[1]], 2)))
  {
    var n := fields[1];
    var args := Filled(fields, 1);
    var next := Filled(fields[0 := a + n], 2);
    var pieces := PiecesOf(args);
    assert Lowest(a + "%2") == Some(2) && ReplaceMarker(a + "%2", 2, n) == a + n by {
      ScanSeam(a, "%2", 2, n);
      NoPercentNoMarker(a);
      NoMarkerUnchanged(a, 2, n);
      SlotMarker(1, 2, n);
    }
    PiecesSeams(args);
    forall j | 0 <= j < 11
      ensures |pieces[j]| > 0 && (Lowest(pieces[j]).None? || 2 <= Lowest(pieces[j]).value)
      ensures ReplaceMarker(pieces[j], 2, n) == PiecesOf(next)[j]
    {
      PieceAt(args, next, j);
      PieceAt(next, args, j);
      if j % 2 == 0 {
        NoPercentNoMarker(pieces[j]);
        NoMarkerUnchanged(pieces[j], 2, n);
      } else if j > 1 {
        SlotMarker(j / 2, 2, n);
      }
    }
    ReplaceLowestPiece(pieces, PiecesOf(next), 2, 1, n);
  }

  /** The first two chained calls, then the rest. */
  lemma ArgChainTwo(s: string, args: seq<string>)
    requires |args| >= 2
    ensures ArgChain(s, args) == ArgChain(Arg(Arg(s, args[0]), args[1]), args[2..])
  {
    assert args[1..][1..] == args[2..];
  }

  /** After the first two calls, the last three fill their slots one by one. */
  lemma PrefixMarkerRest(a: string, fields: seq<string>)
    requires |fields| == 5 && Text.NotIn('%', a)
    requires forall i :: 1 <= i < 5 ==> |fields[i]| > 0
    requires forall i :: 1 <= i < 4 ==> Lowest(fields[i]).None?
    ensures var filled := fields[0 := a + fields[1]];
      ArgChain(Concat(PiecesOf(Filled(filled, 2))), fields[2..]) == Concat(PiecesOf(filled))
  {
    var filled := fields[0 := a + fields[1]];
    assert Lowest(a + fields[1]).None? by {
      ScanSeam(a, fields[1], 0, "");
      NoPercentNoMarker(a);
    }
    FillFrom(filled, 2);
    assert filled[2..] == fields[2..];
  }

  /** The format string is the template of the five markers, whatever the fields. */
  lemma SkeletonFilled(fields: seq<string>)
    requires |fields| == 5
    ensures Concat(PiecesOf(Filled(fields, 0))) == Skeleton
  {
    assert Filled(fields, 0) == Slots;
  }

  /**
   * A prefix ending in "%2" is filled by the chained calls: the negative
   * sign replaces that marker too, where a single pass keeps the prefix.
   */
  lemma ChainedFillsPrefixMarker(a: string, n: string, q: string, s: string, e: string)
    requires Text.NotIn('%', a) && |n| > 0 && |q| > 0 && |s| > 0 && |e| > 0
    requires Lowest(Escape(n)).None? && Lowest(Escape(q)).None? && Lowest(s).None?
    ensures ChainedTemplate(a + "%2", n, q, s, e) == Template(a + Escape(n), n, q, s, e)
  {
    var en := Escape(n);
    var fields := [a + "%2", en, Escape(q), s, e];
    var filled := fields[0 := a + en];
    var t0 := Concat(PiecesOf(Filled(fields, 0)));
    var t1 := Concat(PiecesOf(Filled(fields, 1)));
    var t2 := Concat(PiecesOf(Filled(filled, 2)));
    assert Arg(t0, a + "%2") == t1 by { FillNext(fields, 0); }
    assert Arg(t1, en) == t2 by { PrefixMarkerStep(a, fields); }
    assert ArgChain(t2, fields[2..]) == Concat(PiecesOf(filled)) by { PrefixMarkerRest(a, fields); }
    assert Concat(PiecesOf(filled)) == Template(a + en, n, q, s, e) by {
      assert filled == [a + en, en, Escape(q), s, e];
    }
    assert ArgChain(t0, fields) == ArgChain(t2, fields[2..]) by { ArgChainTwo(t0, fields); }
    ChainedFromSkeleton(fields, a + "%2", n, q, s, e);
  }

  /** The chained template starts from the template of the five markers. */
  lemma ChainedFromSkeleton(fields: seq<string>, p: string, n: string, q: string, s: string, e: string)
    requires fields == [p, Escape(n), Escape(q), s, e]
    ensures ChainedTemplate(p, n, q, s, e) == ArgChain(Concat(PiecesOf(Filled(fields, 0))), fields)
  {
    SkeletonFilled(fields);
  }

  /** A field without '*' is left as it is. */
  lemma {:induction false} ExpandWithoutStar(field: string, wildcard: string)
    requires Text.NotIn('*', field)
    ensures Expand(field, wildcard) == field
    decreases |field|
  {
    if |field| > 0 {
      ExpandHead(field, wildcard);
      assert Text.NotIn('*', field[1..]);
      ExpandWithoutStar(field[1..], wildcard);
      assert [field[0]] + field[1..] == field;
    }
  }

  lemma DifferentHeads(u: string, v: string, r: string)
    requires u != v
    ensures u + r != v + r
  {
    if |u| == |v| {
      var i :| 0 <= i < |u| && u[i] != v[i];
      assert (u + r)[i] == u[i] && (v + r)[i] == v[i];
    }
  }

  /** Templates that differ only in their prefix differ. */
  lemma TemplatePrefixMatters(x: string, y: string, n: string, q: string, s: string, e: string)
    requires x != y
    ensures Template(x, n, q, s, e) != Template(y, n, q, s, e)
  {
    PiecesText(x, Escape(n), Escape(q), s, e);
    PiecesText(y, Escape(n), Escape(q), s, e);
    var r := "((" + (Escape(n) + ("|" + (Escape(q) + (NumberGroup + (s + ("(\\." + (e + ")$")))))));
    DifferentHeads(x, y, r);
    assert ("^" + (x + r))[1..] == x + r && ("^" + (y + r))[1..] == y + r;
  }

  /** A prefix ending in "%2" is neither blank nor holds a '*', so buildFileRegex keeps it as typed. */
  lemma MarkedPrefixKept(a: string)
    requires Text.NotIn('*', a)
    ensures OrAnything(a + "%2") == a + "%2" && Expand(a + "%2", ".*") == a + "%2"
  {
    var prefix := a + "%2";
    assert prefix[|a|] == '%';
    Text.TrimEmptyIffBlank(prefix);
    assert Text.NotIn('*', prefix) by {
      forall i | 0 <= i < |prefix| ensures prefix[i] != '*' {
        if i < |a| { assert prefix[i] == a[i]; }
      }
    }
    ExpandWithoutStar(prefix, ".*");
  }

  /** A field without a marker is not the marker "%2". */
  lemma MarkerIsNoField(a: string, field: string)
    requires Lowest(field).None?
    ensures a + field != a + "%2"
  {
    SlotMarker(1, 0, "");
    assert Slots[1] == "%2";
    assert (a + field)[|a|..] == field && (a + "%2")[|a|..] == "%2";
  }

  /**
   * The patterns the two differ on: a prefix ending in "%2" (such as
   * "a%2") gets the negative sign into it from the chained calls, so
   * buildFileRegex as written stores a different Qt pattern from the
   * single-pass one, which keeps the prefix as typed.
   */
  lemma AsWrittenFillsPrefixMarker(a: string, negChar: string, posChar: string, suffix: string, extension: string)
    requires Text.NotIn('%', a) && Text.NotIn('*', a)
    requires Text.NotIn('%', negChar) && Text.NotIn('%', posChar) && Text.NotIn('%', suffix)
    ensures var n := OrDefault(negChar, "n");
      BuiltRegexesAsWritten(a + "%2", negChar, posChar, suffix, extension).qt
      == Template(a + Escape(n), n, OrDefault(posChar, "p"), Expand(OrAnything(suffix), ".*"), ExtensionPattern(extension))
    ensures BuiltRegexesAsWritten(a + "%2", negChar, posChar, suffix, extension).qt
      != BuiltRegexes(a + "%2", negChar, posChar, suffix, extension).qt
  {
    var prefix := a + "%2";
    var n, q := OrDefault(negChar, "n"), OrDefault(posChar, "p");
    var s := Expand(OrAnything(suffix), ".*");
    var e := ExtensionPattern(extension);
    MarkedPrefixKept(a);
    FilledFields(extension);
    ChainedSignWithoutPercent(negChar, "n");
    ChainedSignWithoutPercent(posChar, "p");
    ChainedFieldsWithoutPercent(suffix, ".*");
    ChainedFillsPrefixMarker(a, n, q, s, e);
    MarkerIsNoField(a, Escape(n));
    TemplatePrefixMatters(a + Escape(n), prefix, n, q, s, e);
  }

  /** A blank sign character is replaced by its default, any other is kept. */
  lemma SignOrDefault(sign: string, default: string)
    requires |default| == 1 && !Text.IsSpace(default[0])
    ensures !Text.IsBlank(OrDefault(sign, default))
    ensures OrDefault(sign, default) == (if Text.IsBlank(sign) then default else sign)
  {
    Text.TrimEmptyIffBlank(sign);
  }

  /** The sign characters stored are never blank: a blank one is replaced by "n" or "p", any other is kept. */
  lemma {:induction false} BuiltSigns(prefix: string, negChar: string, posChar: string, suffix: string, extension: string)
    ensures var r := BuiltRegexes(prefix, negChar, posChar, suffix, extension);
      !Text.IsBlank(r.negChar) && !Text.IsBlank(r.posChar)
      && r.negChar == (if Text.IsBlank(negChar) then "n" else negChar)
      && r.posChar == (if Text.IsBlank(posChar) then "p" else posChar)
  {
    SignOrDefault(negChar, "n");
    SignOrDefault(posChar, "p");
  }

  /** Each "*" of the prefix and suffix reads back from the Qt and the Python pattern pieces. */
  lemma BuiltWildcardsRoundTrip(field: string)
    ensures ReplaceAll(Expand(OrAnything(field), ".*"), ".*", "*") == OrAnything(field)
    ensures ReplaceAll(Expand(OrAnything(field), ".*?"), ".*?", "*") == OrAnything(field)
    ensures Text.IsBlank(field) ==> Expand(OrAnything(field), ".*") == ".*" && Expand(OrAnything(field), ".*?") == ".*?"
  {
    ExpandCollapse(OrAnything(field), ".*");
    ExpandCollapse(OrAnything(field), ".*?");
    Text.TrimEmptyIffBlank(field);
    if Text.IsBlank(field) {
      ExpandHead("*", ".*");
      ExpandHead("*", ".*?");
    }
  }

  /** Pieces that are not empty and do not start with '*' never join into a ".*" across a seam. */
  lemma {:induction false} LazyConcatAll(pieces: seq<string>)
    requires forall k :: 0 <= k < |pieces| ==> |pieces[k]| > 0 && pieces[k][0] != '*'
    ensures Lazy(Concat(pieces)) == Concat(seq(|pieces|, k requires 0 <= k < |pieces| => Lazy(pieces[k])))
    decreases |pieces|
  {
    if |pieces| > 0 {
      var rest := pieces[1..];
      LazyConcatAll(rest);
      var c := Concat(rest);
      if |rest| > 0 {
        assert c == rest[0] + Concat(rest[1..]);
        assert c[0] == rest[0][0];
      }
      LazyConcat(pieces[0], c);
      var lz := seq(|pieces|, k requires 0 <= k < |pieces| => Lazy(pieces[k]));
      assert lz[1..] == seq(|rest|, k requires 0 <= k < |rest| => Lazy(rest[k]));
    }
  }

  /** The angle group of the template: a sign, then digits with an optional fraction. */
  const NumberGroup: string := ")(\\d+(\\.\\d+)?))"

  lemma NumberGroupIsNotLazy()
    ensures |NumberGroup| > 0 && NumberGroup[0] == ')' && Lazy(NumberGroup) == NumberGroup
  {
    assert Text.NotIn('*', NumberGroup) by {
      forall i | 0 <= i < |NumberGroup| ensures NumberGroup[i] != '*' {
      }
    }
    LazyWithoutStar(NumberGroup);
  }

  /** The fixed text of the template holds no ".*". */
  lemma FixedTextIsNotLazy()
    ensures Lazy("^") == "^" && Lazy("((") == "((" && Lazy("|") == "|"
    ensures Lazy("(\\.") == "(\\." && Lazy(")$") == ")$"
  {
    LazyWithoutStar("^");
    LazyWithoutStar("((");
    LazyWithoutStar("|");
    LazyWithoutStar("(\\.");
    LazyWithoutStar(")$");
  }

  /** Every piece of the template is non-empty and none starts with '*', so no ".*" forms across a seam. */
  lemma TemplatePiecesStart(p: string, n: string, q: string, s: string, e: string)
    requires |p| > 0 && p[0] != '*'
    requires |s| > 0 && s[0] != '*'
    requires |e| > 0 && e[0] != '*'
    requires |n| > 0 && |q| > 0
    ensures var pieces := TemplatePieces(p, n, q, s, e);
      forall k :: 0 <= k < |pieces| ==> |pieces[k]| > 0 && pieces[k][0] != '*'
  {
    var pieces := TemplatePieces(p, n, q, s, e);
    forall k | 0 <= k < |pieces|
      ensures |pieces[k]| > 0 && pieces[k][0] != '*'
    {
      TemplatePieceStart(p, n, q, s, e, k);
    }
  }

  lemma TemplatePieceStart(p: string, n: string, q: string, s: string, e: string, k: int)
    requires |p| > 0 && p[0] != '*'
    requires |s| > 0 && s[0] != '*'
    requires |e| > 0 && e[0] != '*'
    requires |n| > 0 && |q| > 0
    requires 0 <= k < 11
    ensures var piece := TemplatePieces(p, n, q, s, e)[k];
      |piece| > 0 && piece[0] != '*'
  {
    var pieces := TemplatePieces(p, n, q, s, e);
    if k == 3 {
      EscapeHasNoWildcard(n);
    } else if k == 5 {
      EscapeHasNoWildcard(q);
    } else if k == 6 {
      NumberGroupIsNotLazy();
    } else if k == 8 {
      assert pieces[k][0] == '(';
    }
  }

  /** Made lazy piece by piece, the template changes only in its prefix and suffix. */
  lemma TemplatePiecesLazy(p: string, n: string, q: string, s: string, e: string)
    requires Lazy(e) == e
    ensures var pieces := TemplatePieces(p, n, q, s, e);
      seq(|pieces|, k requires 0 <= k < |pieces| => Lazy(pieces[k])) == TemplatePieces(Lazy(p), n, q, Lazy(s), e)
  {
    var pieces := TemplatePieces(p, n, q, s, e);
    var lazied := seq(|pieces|, k requires 0 <= k < |pieces| => Lazy(pieces[k]));
    var target := TemplatePieces(Lazy(p), n, q, Lazy(s), e);
    forall k | 0 <= k < |pieces|
      ensures lazied[k] == target[k]
    {
      assert lazied[k] == Lazy(pieces[k]);
      if k == 3 {
        EscapeHasNoWildcard(n);
      } else if k == 5 {
        EscapeHasNoWildcard(q);
      } else if k == 6 {
        NumberGroupIsNotLazy();
      } else if k !in {1, 7, 9} {
        FixedTextIsNotLazy();
      }
    }
  }

  lemma TemplateLazy(p: string, n: string, q: string, s: string, e: string)
    requires |p| > 0 && p[0] != '*'
    requires |s| > 0 && s[0] != '*'
    requires |e| > 0 && e[0] != '*'
    requires |n| > 0 && |q| > 0
    requires Lazy(e) == e
    ensures Lazy(Template(p, n, q, s, e)) == Template(Lazy(p), n, q, Lazy(s), e)
  {
    TemplatePiecesStart(p, n, q, s, e);
    LazyConcatAll(TemplatePieces(p, n, q, s, e));
    TemplatePiecesLazy(p, n, q, s, e);
  }

  /**
   * The Python pattern is the Qt pattern with every ".*" made lazy, as long
   * as the extension field itself holds no ".*" and does not start with "*".
   */
  lemma PythonIsLazyQt(prefix: string, negChar: string, posChar: string, suffix: string, extension: string)
    requires Lazy(extension) == extension
    requires |extension| > 0 ==> extension[0] != '*'
    ensures var r := BuiltRegexes(prefix, negChar, posChar, suffix, extension);
      r.python == Lazy(r.qt)
  {
    var p, s := OrAnything(prefix), OrAnything(suffix);
    var e := ExtensionPattern(extension);
    var n, q := OrDefault(negChar, "n"), OrDefault(posChar, "p");
    FieldsNonEmpty(prefix, suffix, extension, negChar, posChar);
    if e == ".+" {
      assert Lazy(".+") == ".+" by {
        LazyHead(".+");
        LazyHead("+");
      }
    }
    ExpandFirst(p, ".*");
    ExpandFirst(s, ".*");
    TemplateLazy(Expand(p, ".*"), n, q, Expand(s, ".*"), e);
    LazyExpand(p);
    LazyExpand(s);
  }

  /** Every field buildFileRegex puts into the template is non-empty. */
  lemma FieldsNonEmpty(prefix: string, suffix: string, extension: string, negChar: string, posChar: string)
    ensures |OrAnything(prefix)| > 0 && |OrAnything(suffix)| > 0 && |ExtensionPattern(extension)| > 0
    ensures |OrDefault(negChar, "n")| > 0 && |OrDefault(posChar, "p")| > 0
    ensures ExtensionPattern(extension) == ".+" || ExtensionPattern(extension) == extension
  {
    assert Text.Trim("") == "";
  }

  // ---- matchFileName ----

  /** What the regex engine reports for an exact match: capture positions and texts. */
  datatype Captures = Captures(pos1: nat, cap1: string, cap2: string, cap3: string, pos5: nat, cap5: string)

  datatype CapGroup = CapGroup(name: string, value: string)
  datatype MatchInfo = MatchInfo(matched: bool, groups: seq<CapGroup>)

  /** QString::left(n). */
  function Left(s: string, n: nat): string
  {
    if n >= |s| then s else s[..n]
  }

  /** QString::mid(start, n): a negative n or one past the end takes the rest. */
  function Mid(s: string, start: nat, n: int): string
  {
    if start >= |s| then ""
    else if n < 0 || start + n > |s| then s[start..]
    else s[start..start + n]
  }

  /** The sign character as a sign: the positive one first, then the negative one. */
  function SignOf(cap: string, negChar: string, posChar: string): string
  {
    if cap == posChar then "+" else if cap == negChar then "-" else cap
  }

  /**
   * matchFileName after the regex engine: `captures` is None when the name
   * does not match exactly; `angleIsZero` is whether the signed angle text
   * converts to 0 (the conversion to a float is not modelled).
   */
  function MatchFileName(fileName: string, captures: Option<Captures>, angleIsZero: bool,
                         negChar: string, posChar: string): MatchInfo
  {
    var valid := match captures
      case None => false
      case Some(c) => !(Text.IsBlank(SignOf(c.cap2, negChar, posChar)) && !angleIsZero);
    if valid then
      var c := captures.value;
      var start := c.pos1 + |c.cap1|;
      MatchInfo(true, [CapGroup("Prefix", Left(fileName, c.pos1)),
                       CapGroup("Angle", SignOf(c.cap2, negChar, posChar) + c.cap3),
                       CapGroup("Suffix", Mid(fileName, start, c.pos5 - start)),
                       CapGroup("Ext", c.cap5)])
    else
      MatchInfo(false, [CapGroup("Prefix", ""), CapGroup("Angle", ""), CapGroup("Suffix", ""), CapGroup("Ext", "")])
  }

  function GroupNames(groups: seq<CapGroup>): seq<string>
  {
    seq(|groups|, i requires 0 <= i < |groups| => groups[i].name)
  }

  /**
   * The groups are always Prefix, Angle, Suffix, Ext; a failed match leaves
   * them empty; a name that matches with one of the two sign characters is
   * valid and its angle is signed by "+" or "-"; and a missing sign is only
   * accepted for a zero angle.
   */
  lemma MatchFileNameSpec(fileName: string, captures: Option<Captures>, angleIsZero: bool,
                          negChar: string, posChar: string)
    requires !Text.IsBlank(negChar) && !Text.IsBlank(posChar)
    ensures var m := MatchFileName(fileName, captures, angleIsZero, negChar, posChar);
      GroupNames(m.groups) == ["Prefix", "Angle", "Suffix", "Ext"]
      && (!m.matched ==> forall k :: 0 <= k < |m.groups| ==> m.groups[k].value == "")
      && (captures.None? ==> !m.matched)
      && (captures.Some? && captures.value.cap2 == posChar ==> m.matched && m.groups[1].value == "+" + captures.value.cap3)
      && (captures.Some? && captures.value.cap2 == negChar && negChar != posChar ==>
            m.matched && m.groups[1].value == "-" + captures.value.cap3)
      && (captures.Some? && Text.IsBlank(captures.value.cap2) ==> (m.matched <==> angleIsZero))
      && (m.matched ==> Text.StartsWith(fileName, m.groups[0].value))
  {
    var m := MatchFileName(fileName, captures, angleIsZero, negChar, posChar);
    assert !Text.IsBlank("+") && !Text.IsBlank("-") by {
      assert "+"[0] == '+' && "-"[0] == '-';
    }
    if captures.Some? && Text.IsBlank(captures.value.cap2) {
      var c := captures.value;
      assert c.cap2 != posChar && c.cap2 != negChar;
    }
    if m.matched {
      var c := captures.value;
      assert Left(fileName, c.pos1) == fileName[..|Left(fileName, c.pos1)|];
    }
  }

  /** getRegexSubsitutions: under "angle", the escaped positive sign maps to "+", then the escaped negative to "-". */
  function Substitutions(negChar: string, posChar: string): map<string, seq<map<string, string>>>
  {
    map["angle" := [map[Escape(posChar) := "+"], map[Escape(negChar) := "-"]]]
  }

  /** The substitutions undo the escaping and restore the sign characters. */
  lemma SubstitutionsSpec(negChar: string, posChar: string)
    ensures var s := Substitutions(negChar, posChar);
      s.Keys == {"angle"} && |s["angle"]| == 2
      && (exists k :: k in s["angle"][0] && Unescape(k) == posChar && s["angle"][0][k] == "+")
      && (exists k :: k in s["angle"][1] && Unescape(k) == negChar && s["angle"][1][k] == "-")
  {
    EscapeRoundTrip(negChar);
    EscapeRoundTrip(posChar);
    var s := Substitutions(negChar, posChar);
    assert Escape(posChar) in s["angle"][0];
    assert Escape(negChar) in s["angle"][1];
  }

  class BasicFormatWidget {
    var format: RegexFormat
    var extension: RegexExtension
    var fileNameRegex: string
    var pythonFileNameRegex: string
    var negChar: string
    var posChar: string
    /** The five fields shown in the custom-format group. */
    var customFields: seq<string>
    var customEnabled: bool
    var extensionComboEnabled: bool

    /** The regexes and signs agree with the custom fields, once updateRegex has run. */
    ghost predicate Consistent()
      reads this
    {
      |customFields| == 5
      && Regexes(fileNameRegex, pythonFileNameRegex, negChar, posChar)
         == BuiltRegexes(customFields[0], customFields[1], customFields[2], customFields[3], customFields[4])
    }

    /**
     * Filling the combo boxes selects their first entries, which runs
     * onFormatChanged(0) and then onExtensionChanged(0).
     */
    constructor ()
      ensures format == NegativePositive && extension == Dm3
      ensures customFields == DefaultParams(NegativePositive, Dm3) && Consistent()
      ensures !customEnabled && extensionComboEnabled
    {
      format := NegativePositive;
      extension := Dm3;
      fileNameRegex, pythonFileNameRegex, negChar, posChar := "", "", "", "";
      customFields := [];
      customEnabled := false;
      extensionComboEnabled := true;
      new;
      UpdateRegex();
    }

    method BuildFileRegex(prefix: string, negative: string, positive: string, suffix: string, ext: string)
      modifies this
      ensures Regexes(fileNameRegex, pythonFileNameRegex, negChar, posChar) == BuiltRegexes(prefix, negative, positive, suffix, ext)
      ensures format == old(format) && extension == old(extension) && customFields == old(customFields)
      ensures customEnabled == old(customEnabled) && extensionComboEnabled == old(extensionComboEnabled)
    {
      var built := BuildRegexes(prefix, negative, positive, suffix, ext);
      fileNameRegex, pythonFileNameRegex, negChar, posChar := built.qt, built.python, built.negChar, built.posChar;
    }

    /** updateRegex: builds the regexes from the defaults of the current format and extension. */
    method UpdateRegex()
      modifies this
      ensures customFields == DefaultParams(format, extension) && Consistent()
      ensures format == old(format) && extension == old(extension)
      ensures customEnabled == old(customEnabled) && extensionComboEnabled == old(extensionComboEnabled)
    {
      var params := DefaultParams(format, extension);
      DefaultParamsWellFormed(format, extension);
      if |params| != 5 {
        assert false;
        return;
      }
      BuildFileRegex(params[0], params[1], params[2], params[3], params[4]);
      customFields := params;
    }

    /** onFormatChanged: an index outside the combo box is ignored. */
    method OnFormatChanged(index: int)
      modifies this
      ensures !(0 <= index < |FormatOrder|) ==>
        format == old(format) && customFields == old(customFields) && fileNameRegex == old(fileNameRegex)
        && pythonFileNameRegex == old(pythonFileNameRegex) && negChar == old(negChar) && posChar == old(posChar)
        && customEnabled == old(customEnabled) && extensionComboEnabled == old(extensionComboEnabled)
      ensures 0 <= index < |FormatOrder| ==>
        format == FormatOrder[index] && customFields == DefaultParams(format, extension) && Consistent()
        && customEnabled == (format == Custom) && extensionComboEnabled == (format != Custom)
      ensures extension == old(extension)
    {
      if index >= |FormatOrder| || index < 0 {
        return;
      }
      format := FormatOrder[index];
      match format {
        case Custom =>
          customEnabled := true;
          extensionComboEnabled := false;
        case _ =>
          customEnabled := false;
          extensionComboEnabled := true;
      }
      UpdateRegex();
    }

    /** onExtensionChanged: an index outside the combo box is ignored. */
    method OnExtensionChanged(index: int)
      modifies this
      ensures !(0 <= index < |ExtensionOrder|) ==>
        extension == old(extension) && customFields == old(customFields) && fileNameRegex == old(fileNameRegex)
        && pythonFileNameRegex == old(pythonFileNameRegex) && negChar == old(negChar) && posChar == old(posChar)
      ensures 0 <= index < |ExtensionOrder| ==>
        extension == ExtensionOrder[index] && customFields == DefaultParams(format, extension) && Consistent()
      ensures format == old(format)
      ensures customEnabled == old(customEnabled) && extensionComboEnabled == old(extensionComboEnabled)
    {
      if index >= |ExtensionOrder| || index < 0 {
        return;
      }
      extension := ExtensionOrder[index];
      UpdateRegex();
    }

    /** customFileRegex: edited fields rebuild the regexes, unless there are not exactly five. */
    method CustomFileRegex(fields: seq<string>)
      modifies this
      ensures |fields| != 5 ==>
        fileNameRegex == old(fileNameRegex) && pythonFileNameRegex == old(pythonFileNameRegex)
        && negChar == old(negChar) && posChar == old(posChar)
      ensures |fields| == 5 ==>
        Regexes(fileNameRegex, pythonFileNameRegex, negChar, posChar) == BuiltRegexes(fields[0], fields[1], fields[2], fields[3], fields[4])
      ensures format == old(format) && extension == old(extension) && customFields == old(customFields)
      ensures customEnabled == old(customEnabled) && extensionComboEnabled == old(extensionComboEnabled)
    {
      if |fields| != 5 {
        return;
      }
      BuildFileRegex(fields[0], fields[1], fields[2], fields[3], fields[4]);
    }

    method Match(fileName: string, captures: Option<Captures>, angleIsZero: bool) returns (m: MatchInfo)
      ensures m == MatchFileName(fileName, captures, angleIsZero, negChar, posChar)
    {
      m := MatchFileName(fileName, captures, angleIsZero, negChar, posChar);
    }

    method GetRegexSubsitutions() returns (s: map<string, seq<map<string, string>>>)
      ensures s == Substitutions(negChar, posChar)
    {
      s := Substitutions(negChar, posChar);
    }

    method GetDefaultFilename() returns (name: string)
      ensures name == DefaultFileName(format, extension)
    {
      name := DefaultFileName(format, extension);
    }

    /** isDefaultFilename: the name is the example of some format and extension. */
    method IsDefaultFilename(fileName: string) returns (found: bool)
      ensures found <==> exists f: RegexFormat, e: RegexExtension :: fileName == DefaultFileName(f, e)
    {
      var i := 0;
      while i < |FormatOrder|
        invariant 0 <= i <= |FormatOrder|
        invariant forall a, b :: 0 <= a < i && 0 <= b < |ExtensionOrder| ==> fileName != DefaultFileName(FormatOrder[a], ExtensionOrder[b])
      {
        var j := 0;
        while j < |ExtensionOrder|
          invariant 0 <= j <= |ExtensionOrder|
          invariant forall b :: 0 <= b < j ==> fileName != DefaultFileName(FormatOrder[i], ExtensionOrder[b])
        {
          if fileName == DefaultFileName(FormatOrder[i], ExtensionOrder[j]) {
            return true;
          }
          j := j + 1;
        }
        i := i + 1;
      }
      forall f: RegexFormat, e: RegexExtension
        ensures fileName != DefaultFileName(f, e)
      {
        var a := if f == NegativePositive then 0 else if f == PlusMinus then 1 else 2;
        var b := if e == Dm3 then 0 else 1;
        assert FormatOrder[a] == f && ExtensionOrder[b] == e;
      }
      return false;
    }
  }
}
