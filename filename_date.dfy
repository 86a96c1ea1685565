/**
 * parse_fname_date: find the flight date in an image's file name. The name's stem
 * (basename up to the first '.') is split on '_', each piece is reduced to its
 * digits, and the first non-empty digit string that pd.to_datetime accepts wins.
 * pd.to_datetime is a parameter; ParseYYYYMMDD is its eight-digit case.
 */
module FilenameDate {
  import opened Outcomes
  import opened Calendar
  import opened Text

  /** The underscore-separated pieces of the basename up to its first '.'. */
  function NameSegments(fname: string): (segs: seq<string>)
    ensures |segs| >= 1
    ensures forall k :: 0 <= k < |segs| ==> '_' !in segs[k] && '.' !in segs[k] && '/' !in segs[k]
  {
    var stem := Split(Basename(fname), '.')[0];
    assert forall c :: c in stem ==> c in Basename(fname) by {
      JoinSplit(Basename(fname), '.');
      JoinPrefix(Split(Basename(fname), '.'), '.');
    }
    SegmentsOfStem(stem);
    Split(stem, '_')
  }

  lemma JoinPrefix(pieces: seq<string>, sep: char)
    requires |pieces| >= 1
    ensures Join(pieces, sep)[..|pieces[0]|] == pieces[0]
  {
  }

  lemma SegmentsOfStem(stem: string)
    requires '.' !in stem && '/' !in stem
    ensures forall k :: 0 <= k < |Split(stem, '_')| ==> '.' !in Split(stem, '_')[k] && '/' !in Split(stem, '_')[k]
  {
    var pieces := Split(stem, '_');
    forall k | 0 <= k < |pieces|
      ensures '.' !in pieces[k] && '/' !in pieces[k]
    {
      JoinSplit(stem, '_');
      PieceWithinJoin(pieces, '_', k);
    }
  }

  lemma {:induction false} PieceWithinJoin(pieces: seq<string>, sep: char, k: nat)
    requires k < |pieces|
    ensures forall c :: c in pieces[k] ==> c in Join(pieces, sep)
  {
    if k > 0 {
      PieceWithinJoin(pieces[1..], sep, k - 1);
    }
  }

  /** A piece that yields a date: it has digits and pd.to_datetime accepts them. */
  predicate Parses(seg: string, toDatetime: string -> Option<CalendarDate>) {
    Digits(seg) != "" && toDatetime(Digits(seg)).Some?
  }

  /** The date of the first piece, left to right, that parses; None when none does. */
  function FirstParsed(segs: seq<string>, toDatetime: string -> Option<CalendarDate>): Option<CalendarDate> {
    if segs == [] then None
    else if Parses(segs[0], toDatetime) then toDatetime(Digits(segs[0]))
    else FirstParsed(segs[1..], toDatetime)
  }

  /** None exactly when no piece parses; otherwise the date of a piece that parses, all pieces before it failing. */
  lemma {:induction false} FirstParsedIsFirst(segs: seq<string>, toDatetime: string -> Option<CalendarDate>)
    ensures FirstParsed(segs, toDatetime).None? <==> forall i :: 0 <= i < |segs| ==> !Parses(segs[i], toDatetime)
    ensures FirstParsed(segs, toDatetime).Some? ==>
      exists i :: 0 <= i < |segs| && Parses(segs[i], toDatetime)
        && FirstParsed(segs, toDatetime) == toDatetime(Digits(segs[i]))
        && forall j :: 0 <= j < i ==> !Parses(segs[j], toDatetime)
  {
    if segs != [] && !Parses(segs[0], toDatetime) {
      FirstParsedIsFirst(segs[1..], toDatetime);
      assert forall i :: 1 <= i < |segs| ==> segs[i] == segs[1..][i - 1];
      if FirstParsed(segs, toDatetime).Some? {
        var i :| 0 <= i < |segs[1..]| && Parses(segs[1..][i], toDatetime)
          && FirstParsed(segs[1..], toDatetime) == toDatetime(Digits(segs[1..][i]))
          && forall j :: 0 <= j < i ==> !Parses(segs[1..][j], toDatetime);
        assert forall j :: 0 <= j < i + 1 ==> !Parses(segs[j], toDatetime) by {
          forall j | 0 <= j < i + 1 ensures !Parses(segs[j], toDatetime) {
            if j > 0 { assert segs[j] == segs[1..][j - 1]; }
          }
        }
        assert Parses(segs[i + 1], toDatetime);
      }
    } else if segs != [] {
      assert Parses(segs[0], toDatetime);
    }
  }

  /** A piece without digits is skipped, whatever pd.to_datetime would make of the empty string. */
  lemma DigitlessPieceSkipped(seg: string, rest: seq<string>, toDatetime: string -> Option<CalendarDate>)
    requires forall i :: 0 <= i < |seg| ==> !IsDigit(seg[i])
    ensures FirstParsed([seg] + rest, toDatetime) == FirstParsed(rest, toDatetime)
  {
    DigitsEmptyIff(seg);
    assert ([seg] + rest)[1..] == rest;
  }

  /** parse_fname_date, with its loop and break. */
  method ParseFnameDate(fname: string, toDatetime: string -> Option<CalendarDate>) returns (dt: Option<CalendarDate>)
    ensures dt == FirstParsed(NameSegments(fname), toDatetime)
  {
    var bname := Basename(fname);
    bname := Split(bname, '.')[0];
    var words: seq<string>;
    if '_' in bname {
      words := Split(bname, '_');
    } else {
      SplitWithoutSeparator(bname, '_');
      words := [bname];
    }
    dt := None;
    var k := 0;
    while k < |words|
      invariant 0 <= k <= |words|
      invariant FirstParsed(words[k..], toDatetime) == FirstParsed(words, toDatetime)
      invariant dt == None
    {
      var dtStr := Digits(words[k]);
      assert words[k..][1..] == words[k + 1..];
      if dtStr != "" {
        var parsed := toDatetime(dtStr);
        if parsed.Some? {
          dt := parsed;
          break;
        }
      }
      k := k + 1;
    }
  }

  /** pd.to_datetime on an eight-digit string YYYYMMDD: the date when it is a real one. */
  function ParseYYYYMMDD(s: string): (r: Option<CalendarDate>)
    ensures r.Some? ==> |s| == 8 && InTimestampRange(r.value) && FormatYYYYMMDD(r.value) == s
  {
    if |s| == 8 && forall i :: 0 <= i < 8 ==> IsDigit(s[i]) then
      var d := Date(DecimalValue(s[..4]), DecimalValue(s[4..6]), DecimalValue(s[6..]));
      if IsValidDate(d) && InTimestampRange(d) then
        FormatOfDecimal(s[..4], 4);
        assert Pow10(4) == 10000;
        FormatOfDecimal(s[4..6], 2);
        FormatOfDecimal(s[6..], 2);
        assert s == s[..4] + s[4..6] + s[6..];
        Some(d)
      else None
    else None
  }

  /** The date written as YYYYMMDD. */
  function FormatYYYYMMDD(d: CalendarDate): (s: string)
    requires 0 <= d.year <= 9999
    ensures |s| == 8
  {
    PadDigits(d.year, 4) + PadDigits(d.month, 2) + PadDigits(d.day, 2)
  }

  lemma {:induction false} FormatOfDecimal(s: string, width: nat)
    requires |s| == width && forall i :: 0 <= i < |s| ==> IsDigit(s[i])
    ensures DecimalValue(s) < Pow10(width)
    ensures PadDigits(DecimalValue(s), width) == s
  {
    if width > 0 {
      FormatOfDecimal(s[..|s| - 1], width - 1);
      var n := DecimalValue(s);
      var last := s[|s| - 1] as int - '0' as int;
      assert n == 10 * DecimalValue(s[..|s| - 1]) + last;
      assert n / 10 == DecimalValue(s[..|s| - 1]) && n % 10 == last;
      assert DigitChar(last) == s[|s| - 1];
      assert s == s[..|s| - 1] + [s[|s| - 1]];
    }
  }

  /**
   * The days a nanosecond pandas Timestamp can hold: from 1677-09-22 (midnight of
   * 1677-09-21 lies before the earliest Timestamp) to 2262-04-11.
   */
  predicate InTimestampRange(d: Date) {
    !DateBefore(d, Date(1677, 9, 22)) && !DateBefore(Date(2262, 4, 11), d)
  }

  /** A piece free of '_', '.' and '/' that opens the name, followed by '_', is its first piece. */
  lemma FirstSegmentOf(first: string, rest: string)
    requires '_' !in first && '.' !in first && '/' !in first && '/' !in rest
    ensures NameSegments(first + "_" + rest)[0] == first
  {
    var fname := first + "_" + rest;
    assert '/' !in fname by {
      assert forall i :: 0 <= i < |fname| ==> fname[i] == if i < |first| then first[i] else if i == |first| then '_' else rest[i - |first| - 1];
    }
    SplitWithoutSeparator(fname, '/');
    var after := Split(rest, '.')[0];
    SplitPrefix(first + "_", rest, '.');
    var stem := Split(fname, '.')[0];
    assert stem == first + ("_" + after);
    SplitPrefix(first, "_" + after, '_');
    assert Split("_" + after, '_')[0] == "" by {
      assert ("_" + after)[0] == '_' && ("_" + after)[1..] == after;
    }
  }

  /**
   * A name whose first '_' piece is a prefix without digits followed by a YYYYMMDD date
   * gives that date, with pd.to_datetime taken as its eight-digit case.
   */
  lemma DatePieceFirst(prefix: string, d: CalendarDate, rest: string)
    requires InTimestampRange(d)
    requires Digits(prefix) == "" && '_' !in prefix && '.' !in prefix && '/' !in prefix && '/' !in rest
    ensures FirstParsed(NameSegments(prefix + FormatYYYYMMDD(d) + "_" + rest), ParseYYYYMMDD) == Some(d)
  {
    var date := FormatYYYYMMDD(d);
    var first := prefix + date;
    assert forall c :: c in date ==> IsDigit(c);
    FirstSegmentOf(first, rest);
    DigitsOfConcat(prefix, date);
    DigitsOfDigitString(date);
    assert Digits(first) == date;
    ParseFormatRoundTrip(d);
    assert Parses(first, ParseYYYYMMDD);
  }

  /** The docstring's file name opens with a prefix that has no digit and no separator; no '/' follows. */
  lemma DocstringPrefix()
    ensures Digits("USCASJ") == "" && '_' !in "USCASJ" && '.' !in "USCASJ" && '/' !in "USCASJ"
    ensures '/' !in "SUPERsnow_depth_50p0m_agg.tif"
  {
  }

  /** The docstring's file name is that prefix, the date piece, '_' and the rest. */
  lemma DocstringNameParts()
    ensures "USCASJ" + "20200414" + "_" + "SUPERsnow_depth_50p0m_agg.tif" == "USCASJ20200414_SUPERsnow_depth_50p0m_agg.tif"
  {
  }

  /** April 14, 2020 is written 20200414. */
  lemma DocstringDatePiece()
    ensures FormatYYYYMMDD(Date(2020, 4, 14)) == "20200414"
  {
  }

  /** The file name of the parse_fname_date docstring yields April 14, 2020. */
  lemma DocstringExampleDate()
    ensures FirstParsed(NameSegments("USCASJ20200414_SUPERsnow_depth_50p0m_agg.tif"), ParseYYYYMMDD) == Some(Date(2020, 4, 14))
  {
    DocstringPrefix();
    DocstringNameParts();
    DocstringDatePiece();
    assert InTimestampRange(Date(2020, 4, 14));
    DatePieceFirst("USCASJ", Date(2020, 4, 14), "SUPERsnow_depth_50p0m_agg.tif");
  }

  /** Writing a date pandas can hold as YYYYMMDD and parsing it back gives the date again. */
  lemma ParseFormatRoundTrip(d: CalendarDate)
    requires InTimestampRange(d)
    ensures ParseYYYYMMDD(FormatYYYYMMDD(d)) == Some(d)
  {
    var s := FormatYYYYMMDD(d);
    assert Pow10(2) == 100 && Pow10(4) == 10000;
    assert s[..4] == PadDigits(d.year, 4);
    assert s[4..6] == PadDigits(d.month, 2);
    assert s[6..] == PadDigits(d.day, 2);
    DecimalValueOfPadDigits(d.year, 4);
    DecimalValueOfPadDigits(d.month, 2);
    DecimalValueOfPadDigits(d.day, 2);
  }
}
