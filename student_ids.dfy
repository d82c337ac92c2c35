/**
 * The two student-identifier formats of the student-ID service: `YYYY-NNNN`
 * (year and a random four-digit number) and `SCH-YYYY-NNNN` (school code,
 * year and a zero-padded sequence number), their validators and the year
 * extractor. The current year and the draw of `Math.random()` are parameters.
 */
module StudentIds {
  import opened Wrappers
  import opened Text

  /** `Math.floor(Math.random() * 9000) + 1000` for the draw `u` in [0, 1). */
  function RandomFourDigits(u: real): (n: nat)
    requires 0.0 <= u < 1.0
    ensures 1000 <= n <= 9999
  {
    (u * 9000.0).Floor + 1000
  }

  /** `${year}-${random}`: whatever the year, it ends in a hyphen and four digits. */
  function GenerateStudentId(year: int, u: real): (id: string)
    requires 0.0 <= u < 1.0
    ensures |id| >= 6 && id[|id| - 5] == '-' && FourDigits(id[|id| - 4..])
    ensures id[..|id| - 5] == IntToString(year)
  {
    var n := RandomFourDigits(u);
    FourDigitRendering(n);
    IntToString(year) + "-" + NatToString(n)
  }

  /**
   * `${schoolCode}-${year}-${String(sequence).padStart(4, '0')}`: the code and
   * a hyphen come first; a sequence in 0..9999 makes a hyphen and exactly
   * four digits last.
   */
  function GenerateStudentIdWithSchool(schoolCode: string, sequence: int, year: int): (id: string)
    ensures |id| >= |schoolCode| + 7 && id[..|schoolCode| + 1] == schoolCode + "-"
    ensures 0 <= sequence <= 9999 ==> id[|id| - 5] == '-' && FourDigits(id[|id| - 4..])
  {
    var f := SequenceField(sequence);
    SequenceFieldDigits(sequence);
    var id := schoolCode + "-" + IntToString(year) + "-" + f;
    assert id[|id| - |f|..] == f;
    id
  }

  /** The pattern `^\d{4}-\d{4}$`, character by character. */
  predicate IsValidStudentId(s: string)
    ensures IsValidStudentId(s) <==>
      |s| == 9 && forall i :: 0 <= i < 9 ==> if i == 4 then s[i] == '-' else IsDigit(s[i])
  {
    |s| == 9 && FourDigits(s[..4]) && s[4] == '-' && FourDigits(s[5..])
  }

  /**
   * The pattern `^[A-Z]{2,5}-\d{4}-\d{4}$`. The total length fixes the
   * length k of the letter run, so no search over k is needed.
   */
  predicate IsValidStudentIdWithSchool(s: string)
    ensures IsValidStudentIdWithSchool(s) <==>
      && 12 <= |s| <= 15
      && forall i :: 0 <= i < |s| ==>
           if i < |s| - 10 then IsUpper(s[i])
           else if i == |s| - 10 || i == |s| - 5 then s[i] == '-'
           else IsDigit(s[i])
  {
    var k := |s| - 10;
    if 2 <= k <= 5 then
      UpperBetween(s, 0, k);
      DigitsBetween(s, k + 1, k + 5);
      DigitsBetween(s, k + 6, |s|);
      && AllUpper(s[..k])
      && s[k] == '-'
      && FourDigits(s[k + 1..k + 5])
      && s[k + 5] == '-'
      && FourDigits(s[k + 6..])
    else false
  }

  /** A slice is all digits exactly when each of its positions holds a digit. */
  lemma DigitsBetween(s: string, lo: nat, hi: nat)
    requires lo <= hi <= |s|
    ensures AllDigits(s[lo..hi]) <==> forall i :: lo <= i < hi ==> IsDigit(s[i])
  {
    assert forall i :: lo <= i < hi ==> s[lo..hi][i - lo] == s[i];
  }

  /** A slice is all capitals exactly when each of its positions holds a capital. */
  lemma UpperBetween(s: string, lo: nat, hi: nat)
    requires lo <= hi <= |s|
    ensures AllUpper(s[lo..hi]) <==> forall i :: lo <= i < hi ==> IsUpper(s[i])
  {
    assert forall i :: lo <= i < hi ==> s[lo..hi][i - lo] == s[i];
  }

  /**
   * `parseInt(id.split('-')[0])` for the plain format, `parseInt(id.split('-')[1])`
   * for the school format, `null` otherwise: the year is read from the
   * fixed position that the matching pattern gives it.
   */
  function ExtractYear(s: string): (year: Option<int>)
    ensures year.None? <==> !IsValidStudentId(s) && !IsValidStudentIdWithSchool(s)
    ensures IsValidStudentId(s) ==> year == Some(DecimalValue(s[..4]))
    ensures IsValidStudentIdWithSchool(s) ==> year == Some(DecimalValue(s[|s| - 9..|s| - 5]))
  {
    if IsValidStudentId(s) then
      PlainIdParts(s);
      Some(DecimalValue(Split(s, '-')[0]))
    else if IsValidStudentIdWithSchool(s) then
      SchoolIdParts(s);
      Some(DecimalValue(Split(s, '-')[1]))
    else
      None
  }

  lemma SeparatorFree(s: string)
    requires AllDigits(s) || AllUpper(s)
    ensures '-' !in s
  {
    assert forall i :: 0 <= i < |s| ==> s[i] != '-';
  }

  /** A plain identifier splits into its two four-digit fields. */
  lemma PlainIdParts(s: string)
    requires IsValidStudentId(s)
    ensures Split(s, '-') == [s[..4], s[5..]]
  {
    SeparatorFree(s[..4]);
    SeparatorFree(s[5..]);
    assert s == s[..4] + ['-'] + s[5..];
    SplitField(s[..4], '-', s[5..]);
    SplitWithoutSeparator(s[5..], '-');
  }

  /** A school identifier splits into code, year and sequence fields. */
  lemma SchoolIdParts(s: string)
    requires IsValidStudentIdWithSchool(s)
    ensures var k := |s| - 10; Split(s, '-') == [s[..k], s[k + 1..k + 5], s[k + 6..]]
  {
    var k := |s| - 10;
    var code, tail := s[..k], s[k + 1..];
    var y, n := tail[..4], tail[5..];
    assert y == s[k + 1..k + 5] && n == s[k + 6..];
    SeparatorFree(code);
    SeparatorFree(y);
    SeparatorFree(n);
    CutAt(s, k);
    CutAt(tail, 4);
    SplitField(code, '-', tail);
    SplitField(y, '-', n);
    SplitWithoutSeparator(n, '-');
  }

  /** A string is what lies before, at and after any of its positions. */
  lemma CutAt(s: string, k: nat)
    requires k < |s|
    ensures s == s[..k] + [s[k]] + s[k + 1..]
  {
  }

  /** `isValidStudentId` accepts exactly the strings that split on '-' into two four-digit fields. */
  lemma PlainIdIffFields(s: string)
    ensures IsValidStudentId(s) <==>
      var p := Split(s, '-'); |p| == 2 && FourDigits(p[0]) && FourDigits(p[1])
  {
    var p := Split(s, '-');
    if IsValidStudentId(s) {
      PlainIdParts(s);
    }
    if |p| == 2 && FourDigits(p[0]) && FourDigits(p[1]) {
      SplitJoin(s, '-');
      assert s == p[0] + "-" + p[1];
      assert s[..4] == p[0] && s[5..] == p[1];
    }
  }

  /**
   * `isValidStudentIdWithSchool` accepts exactly the strings that split on
   * '-' into 2 to 5 capitals and two four-digit fields.
   */
  lemma SchoolIdIffFields(s: string)
    ensures IsValidStudentIdWithSchool(s) <==>
      var p := Split(s, '-');
      |p| == 3 && 2 <= |p[0]| <= 5 && AllUpper(p[0]) && FourDigits(p[1]) && FourDigits(p[2])
  {
    var p := Split(s, '-');
    if IsValidStudentIdWithSchool(s) {
      SchoolIdParts(s);
    }
    if |p| == 3 && 2 <= |p[0]| <= 5 && AllUpper(p[0]) && FourDigits(p[1]) && FourDigits(p[2]) {
      SplitJoin(s, '-');
      assert p[1..][1..] == p[2..];
      assert Join(p[2..], '-') == p[2];
      assert Join(p[1..], '-') == p[1] + "-" + p[2];
      assert s == p[0] + "-" + (p[1] + "-" + p[2]);
      var k := |p[0]|;
      assert s[..k] == p[0] && s[k + 1..k + 5] == p[1] && s[k + 6..] == p[2];
    }
  }

  /** The two formats never overlap: one starts with a digit, the other with a capital. */
  lemma FormatsDisjoint(s: string)
    ensures IsValidStudentId(s) ==> IsDigit(s[0]) && !IsValidStudentIdWithSchool(s)
    ensures IsValidStudentIdWithSchool(s) ==> IsUpper(s[0]) && !IsValidStudentId(s)
  {
    if IsValidStudentId(s) {
      assert s[0] == s[..4][0];
    }
    if IsValidStudentIdWithSchool(s) {
      assert s[0] == s[..|s| - 10][0];
    }
  }

  /** For a four-digit year the plain generator passes its validator and the year reads back. */
  lemma {:induction false} GeneratedIdRoundTrip(year: int, u: real)
    requires 1000 <= year <= 9999
    requires 0.0 <= u < 1.0
    ensures IsValidStudentId(GenerateStudentId(year, u))
    ensures ExtractYear(GenerateStudentId(year, u)) == Some(year)
  {
    var id := GenerateStudentId(year, u);
    FourDigitRendering(year);
    DecimalValueOfNatToString(year);
    assert id[..4] == NatToString(year);
  }

  /** The zero-padded sequence field of a school identifier. */
  function SequenceField(sequence: int): string
  {
    PadStart(IntToString(sequence), 4, '0')
  }

  /** Sequences 0..9999 pad to exactly four digits; any other sequence does not give a four-digit field. */
  lemma SequenceFieldDigits(sequence: int)
    ensures FourDigits(SequenceField(sequence)) <==> 0 <= sequence <= 9999
    ensures 0 <= sequence ==> AllDigits(SequenceField(sequence))
    ensures sequence >= 10000 ==> |SequenceField(sequence)| >= 5
  {
    var t := IntToString(sequence);
    var f := SequenceField(sequence);
    if sequence >= 0 {
      NatToStringLength(sequence, 4);
      forall i | 0 <= i < |f| ensures IsDigit(f[i]) {
        if i >= |f| - |t| {
          assert f[i] == f[|f| - |t|..][i - (|f| - |t|)];
        }
      }
    } else {
      assert f[|f| - |t|..][0] == '-';
    }
  }

  /**
   * Behind a valid code and a four-digit year, the validator accepts exactly
   * a four-digit last field.
   */
  lemma SchoolIdLayout(code: string, y: string, f: string)
    requires 2 <= |code| <= 5 && AllUpper(code)
    requires FourDigits(y)
    ensures IsValidStudentIdWithSchool(code + "-" + y + "-" + f) <==> FourDigits(f)
  {
    var id := code + "-" + y + "-" + f;
    var k := |id| - 10;
    if |f| == 4 {
      assert id[..k] == code && id[k + 1..k + 5] == y && id[k + 6..] == f;
    } else if |f| > 4 {
      if k <= 5 {
        assert id[..k][|code|] == '-';
      }
    } else {
      if 2 <= k {
        assert id[k] == code[k];
      }
    }
  }

  /**
   * With a valid school code and a four-digit year, the school generator
   * passes its validator exactly when the sequence is 0..9999, and then the
   * year reads back.
   */
  lemma {:induction false} SchoolIdRoundTrip(code: string, sequence: int, year: int)
    requires 2 <= |code| <= 5 && AllUpper(code)
    requires 1000 <= year <= 9999
    ensures IsValidStudentIdWithSchool(GenerateStudentIdWithSchool(code, sequence, year)) <==> 0 <= sequence <= 9999
    ensures 0 <= sequence <= 9999 ==> ExtractYear(GenerateStudentIdWithSchool(code, sequence, year)) == Some(year)
  {
    var y := IntToString(year);
    var f := SequenceField(sequence);
    FourDigitRendering(year);
    SequenceFieldDigits(sequence);
    SchoolIdLayout(code, y, f);
    if 0 <= sequence <= 9999 {
      DecimalValueOfNatToString(year);
      YearField(code, y, f);
    }
  }

  /** The year field sits nine to five characters from the end. */
  lemma YearField(code: string, y: string, f: string)
    requires |y| == 4 && |f| == 4
    ensures var id := code + "-" + y + "-" + f; id[|id| - 9..|id| - 5] == y
  {
  }

  /**
   * `padStart` never truncates: whatever the code, a sequence of 10000 or
   * more makes an identifier the school validator rejects.
   */
  lemma {:induction false} OverlongSequenceRejected(code: string, sequence: int, year: int)
    requires sequence >= 10000
    ensures !IsValidStudentIdWithSchool(GenerateStudentIdWithSchool(code, sequence, year))
  {
    var id := GenerateStudentIdWithSchool(code, sequence, year);
    var f := SequenceField(sequence);
    SequenceFieldDigits(sequence);
    assert id == code + "-" + IntToString(year) + "-" + f;
    var k := |id| - 10;
    if 2 <= k <= 5 {
      assert id[k + 5] == f[|f| - 5];
    }
  }
}
