/**
 * `extract_rating`: the integer written before the first `/100` in an LLM reply,
 * as found by the regular expression `(\d+)/100` under `re.search`.
 * Digits are the ASCII digits '0'..'9'.
 */
module Rating {
  import opened Wrappers

  /** The literal text that must follow the digits. */
  const Suffix: string := "/100"

  predicate IsDigit(c: char)
  {
    '0' <= c <= '9'
  }

  predicate AllDigits(s: string)
  {
    forall k :: 0 <= k < |s| ==> IsDigit(s[k])
  }

  /** `10` to the power `n`. */
  function Pow10(n: nat): nat
  {
    if n == 0 then 1 else 10 * Pow10(n - 1)
  }

  /**
   * Python's `int(ds)` on a string of decimal digits: leading zeros are allowed, and a
   * numeral of `n` digits stands for a number below `10` to the `n`.
   */
  function Value(ds: string): (v: nat)
    requires AllDigits(ds)
    ensures v < Pow10(|ds|)
    decreases |ds|
  {
    if ds == [] then 0
    else
      var init := ds[..|ds| - 1];
      var d := ds[|ds| - 1] as int - '0' as int;
      assert Value(init) * 10 <= (Pow10(|init|) - 1) * 10;
      Value(init) * 10 + d
  }

  /**
   * The pattern `(\d+)/100` matches `s` at index `i` with group 1 being `s[i..j]`:
   * one or more digits, immediately followed by `/100`. The group starts with a digit
   * and stops at a character that is not one.
   */
  predicate GroupAt(s: string, i: int, j: int)
    ensures GroupAt(s, i, j) ==> 0 <= i < j < |s| && IsDigit(s[i]) && !IsDigit(s[j])
  {
    0 <= i < j && j + |Suffix| <= |s| && AllDigits(s[i..j]) && s[j..j + |Suffix|] == Suffix
  }

  /** The end of the run of digits that starts at `i` (the greedy `\d+`). */
  function RunEnd(s: string, i: int): (j: int)
    requires 0 <= i <= |s|
    ensures i <= j <= |s|
    ensures AllDigits(s[i..j])
    ensures j == |s| || !IsDigit(s[j])
    decreases |s| - i
  {
    if i < |s| && IsDigit(s[i]) then
      var j := RunEnd(s, i + 1);
      assert s[i..j] == [s[i]] + s[i + 1..j];
      j
    else i
  }

  /** Backtracking cannot help: a match at `i` always has the whole digit run as its group. */
  lemma {:induction false} GroupIsWholeRun(s: string, i: int, j: int)
    requires GroupAt(s, i, j)
    ensures j == RunEnd(s, i)
    decreases j - i
  {
    assert IsDigit(s[i..j][0]);
    if i + 1 < j {
      assert s[i + 1..j] == s[i..j][1..];
      GroupIsWholeRun(s, i + 1, j);
    } else {
      assert s[j] == s[j..j + |Suffix|][0] == '/';
    }
  }

  /**
   * `re.search` from index `from` on: the leftmost start at which the pattern matches,
   * with its group.
   */
  function Search(s: string, from: nat): (m: Option<(int, int)>)
    requires from <= |s|
    ensures m.Some? ==> from <= m.value.0 && GroupAt(s, m.value.0, m.value.1)
    ensures m.Some? ==> forall i, j :: from <= i < m.value.0 ==> !GroupAt(s, i, j)
    ensures m.None? <==> forall i, j :: from <= i ==> !GroupAt(s, i, j)
    decreases |s| - from
  {
    if from == |s| then None
    else
      var j := RunEnd(s, from);
      if from < j && j + |Suffix| <= |s| && s[j..j + |Suffix|] == Suffix then
        assert GroupAt(s, from, j);
        Some((from, j))
      else
        assert forall j' :: !GroupAt(s, from, j') by {
          forall j' | GroupAt(s, from, j') ensures false {
            GroupIsWholeRun(s, from, j');
          }
        }
        Search(s, from + 1)
  }

  /**
   * `extract_rating(rating_str)`: `None` for `None` or the empty string (both falsy),
   * otherwise the value of group 1 of the first match, or `None` when nothing matches.
   * So there is no rating exactly when the text is `None` or holds no match anywhere,
   * and a rating is the value of the leftmost match's digits, wherever that match stands
   * (no anchoring) and whatever its value (no clamp to 100, no sign). Numerals longer
   * than CPython's `int` digit limit, for which `int` raises, are not distinguished.
   */
  function ExtractRating(text: Option<string>): (r: Option<int>)
    ensures r.None? <==> (text.None? || forall i, j :: !GroupAt(text.value, i, j))
    ensures r.Some? ==> exists i, j :: GroupAt(text.value, i, j)
                                     && (forall i', j' :: 0 <= i' < i ==> !GroupAt(text.value, i', j'))
                                     && r.value == Value(text.value[i..j])
  {
    if text.None? || text.value == "" then None
    else
      match Search(text.value, 0)
      case None => None
      case Some((i, j)) => Some(Value(text.value[i..j]))
  }

  /** The group of the first match is a maximal run of digits: one not preceded by a digit. */
  lemma {:induction false} FirstMatchIsMaximalRun(s: string, i: int, j: int)
    requires GroupAt(s, i, j)
    requires forall i', j' :: 0 <= i' < i ==> !GroupAt(s, i', j')
    ensures i == 0 || !IsDigit(s[i - 1])
    ensures j == |s| || !IsDigit(s[j])
  {
    GroupIsWholeRun(s, i, j);
    if i > 0 && IsDigit(s[i - 1]) {
      assert s[i - 1..j] == [s[i - 1]] + s[i..j];
      assert GroupAt(s, i - 1, j);
      assert false;
    }
  }

  /**
   * The rating of a text is the value of the first digits-then-`/100` group in it,
   * whatever that value is (no clamp to 100), and wherever it stands (no anchoring).
   */
  lemma {:induction false} RatingOfFirstMatch(s: string, i: int, j: int)
    requires GroupAt(s, i, j)
    requires forall i', j' :: 0 <= i' < i ==> !GroupAt(s, i', j')
    ensures ExtractRating(Some(s)) == Some(Value(s[i..j]))
  {
    var m := Search(s, 0);
    assert m.Some?;
    assert m.value.0 == i;
    GroupIsWholeRun(s, i, j);
    GroupIsWholeRun(s, i, m.value.1);
  }

  /** The converse: a rating is always the value of the first match, which is a maximal run. */
  lemma RatingIsFirstMatch(s: string, v: int)
    requires ExtractRating(Some(s)) == Some(v)
    ensures exists i, j :: GroupAt(s, i, j) && (forall i', j' :: 0 <= i' < i ==> !GroupAt(s, i', j'))
                           && (i == 0 || !IsDigit(s[i - 1])) && v == Value(s[i..j])
  {
    var m := Search(s, 0);
    var i, j := m.value.0, m.value.1;
    FirstMatchIsMaximalRun(s, i, j);
    assert v == Value(s[i..j]);
  }

  /** A text without any digit has no rating. */
  lemma NoDigitsNoRating(s: string)
    requires forall k :: 0 <= k < |s| ==> !IsDigit(s[k])
    ensures ExtractRating(Some(s)) == None
  {
    forall i, j | 0 <= i < j <= |s| ensures !AllDigits(s[i..j]) {
      assert s[i..j][0] == s[i];
    }
  }

  /** A reply that starts with digits and `/100` is rated by those digits, whatever follows. */
  lemma LeadingRating(ds: string, rest: string)
    requires |ds| > 0 && AllDigits(ds)
    ensures ExtractRating(Some(ds + Suffix + rest)) == Some(Value(ds))
  {
    var s := ds + Suffix + rest;
    assert s[0..|ds|] == ds;
    assert s[|ds|..|ds| + |Suffix|] == Suffix;
    RatingOfFirstMatch(s, 0, |ds|);
  }

  /** Leading zeros do not change the value: Python's `int("007")` is 7. */
  lemma {:induction false} LeadingZero(ds: string)
    requires AllDigits(ds)
    ensures AllDigits("0" + ds) && Value("0" + ds) == Value(ds)
    decreases |ds|
  {
    var zs := "0" + ds;
    if ds != [] {
      assert zs[..|zs| - 1] == "0" + ds[..|ds| - 1];
      LeadingZero(ds[..|ds| - 1]);
    }
  }

  /** The decimal numeral of `n` without leading zeros. */
  function Decimal(n: nat): (ds: string)
    ensures |ds| > 0 && AllDigits(ds)
    decreases n
  {
    var d := ['0' + (n % 10) as char];
    if n < 10 then d else Decimal(n / 10) + d
  }

  /** Reading a numeral back gives the number it was written from. */
  lemma {:induction false} DecimalValue(n: nat)
    ensures Value(Decimal(n)) == n
    decreases n
  {
    var ds := Decimal(n);
    if n >= 10 {
      assert ds[..|ds| - 1] == Decimal(n / 10);
      DecimalValue(n / 10);
    }
  }

  /**
   * Every natural number written before `/100` is the rating, 150 and 1000 included:
   * nothing clamps it to 100. This is what `int` does on numerals within CPython's
   * limit on the digits it converts (4300 by default); a longer numeral makes `int`
   * raise `ValueError` instead, which the model does not capture.
   */
  lemma NoClamp(n: nat, rest: string)
    ensures ExtractRating(Some(Decimal(n) + Suffix + rest)) == Some(n)
  {
    LeadingRating(Decimal(n), rest);
    DecimalValue(n);
  }

  /** `int` on a numeral of two digits. */
  lemma ValueTwo(ds: string)
    requires |ds| == 2 && AllDigits(ds)
    ensures Value(ds) == 10 * (ds[0] as int - '0' as int) + (ds[1] as int - '0' as int)
  {
    var first := ds[..1];
    assert first[..0] == [] && first[0] == ds[0];
    assert Value(first) == Value(first[..0]) * 10 + (ds[0] as int - '0' as int);
    assert ds[..|ds| - 1] == first;
  }

  /** `int` on a numeral of three digits. */
  lemma ValueThree(ds: string)
    requires |ds| == 3 && AllDigits(ds)
    ensures Value(ds) == 100 * (ds[0] as int - '0' as int) + 10 * (ds[1] as int - '0' as int)
                         + (ds[2] as int - '0' as int)
  {
    ValueTwo(ds[..2]);
    assert ds[..|ds| - 1] == ds[..2];
  }

  /** A reply that is digits, `/100` and anything after is rated by the digits' value. */
  lemma RatedAs(text: string, ds: string, rest: string)
    requires |ds| > 0 && AllDigits(ds) && text == ds + Suffix + rest
    ensures ExtractRating(Some(text)) == Some(Value(ds))
  {
    LeadingRating(ds, rest);
  }

  /** A typical reply is rated by its leading score. */
  lemma ExampleTypical()
    ensures ExtractRating(Some("87/100 - good")) == Some(87)
  {
    assert Value("87") == 87 by {
      ValueTwo("87");
    }
    RatedAs("87/100 - good", "87", " - good");
  }

  /** A reply without digits has no rating; neither have `None` and `""`. */
  lemma ExampleNoRating()
    ensures ExtractRating(Some("no rating here")) == None
    ensures ExtractRating(Some("")) == None && ExtractRating(None) == None
  {
    var none := "no rating here";
    assert forall k :: 0 <= k < |none| ==> none[k] in "no ratighe";
    NoDigitsNoRating(none);
  }

  /** Scores above 100 are not clamped. */
  lemma ExampleNoClamp()
    ensures ExtractRating(Some("150/100")) == Some(150)
  {
    assert Value("150") == 150 by {
      ValueThree("150");
    }
    RatedAs("150/100", "150", "");
  }

  /** Leading zeros are read as Python's `int` reads them. */
  lemma ExampleLeadingZeros()
    ensures ExtractRating(Some("007/100")) == Some(7)
  {
    assert Value("007") == 7 by {
      ValueThree("007");
    }
    RatedAs("007/100", "007", "");
  }

  /** The match is not anchored at its end: `/1000` starts with `/100`. */
  lemma ExampleThousand()
    ensures ExtractRating(Some("87/1000")) == Some(87)
  {
    assert Value("87") == 87 by {
      ValueTwo("87");
    }
    RatedAs("87/1000", "87", "0");
  }
}
