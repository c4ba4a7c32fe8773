/**
 * `Hunter.analyze_content` (hunter.py:29-50, app.py:230-251): seller and
 * buyer keyword scores, the three-way verdict, and the extraction of Egyptian
 * mobile numbers with `re.findall(r'(01[0125][0-9]{8})', text)`.
 */
module Classifier {
  import opened Text
  import opened Basics

  const SELLER_WORDS: seq<string> := ["للبيع", "for sale", "سمسار", "وسيط", "شركة", "مؤسسة"]
  const BUYER_WORDS: seq<string> := ["مطلوب", "محتاج", "عايز", "أبحث", "شراء", "buying", "wanted"]

  const PHONE_LENGTH: nat := 11

  datatype Quality = Good | Bad | Neutral

  /**
   * The analysis of one text. `phones` is the set behind `list(set(phones))`:
   * the order of that list is not specified, so the model keeps only its
   * elements.
   */
  datatype Analysis = Analysis(
    sellerScore: nat,
    buyerScore: nat,
    totalScore: int,
    quality: Quality,
    phones: set<string>,
    hasPhone: bool)

  /** `sum(1 for word in words if word in text)`. */
  function Hits(words: seq<string>, text: string): (n: nat)
    ensures n <= |words|
  {
    if words == [] then 0
    else (if Contains(text, words[0]) then 1 else 0) + Hits(words[1..], text)
  }

  /** The keywords of `words` that occur in `text`. */
  function HitSet(words: seq<string>, text: string): set<string>
  {
    set w | w in words && Contains(text, w)
  }

  predicate Distinct(words: seq<string>)
  {
    forall i, j :: 0 <= i < j < |words| ==> words[i] != words[j]
  }

  /** A score counts the distinct keywords present, each once however often it occurs. */
  lemma {:induction false} HitsCountsKeywordsPresent(words: seq<string>, text: string)
    requires Distinct(words)
    ensures Hits(words, text) == |HitSet(words, text)|
  {
    if words != [] {
      var rest := words[1..];
      assert Distinct(rest);
      HitsCountsKeywordsPresent(rest, text);
      HitSetUnfold(words, text);
    }
  }

  lemma HitSetUnfold(words: seq<string>, text: string)
    requires Distinct(words) && words != []
    ensures |HitSet(words, text)| == (if Contains(text, words[0]) then 1 else 0) + |HitSet(words[1..], text)|
  {
    var rest := words[1..];
    assert words[0] !in rest;
    var here: set<string> := if Contains(text, words[0]) then {words[0]} else {};
    assert forall w :: w in words <==> w == words[0] || w in rest by {
      assert words == [words[0]] + rest;
    }
    assert HitSet(words, text) == here + HitSet(rest, text);
    assert here !! HitSet(rest, text);
  }

  lemma KeywordListsDistinct()
    ensures Distinct(SELLER_WORDS) && Distinct(BUYER_WORDS)
  {
  }

  /** The verdict on `score = buyer_count - seller_count`. */
  function Verdict(score: int): (q: Quality)
    ensures q == Good <==> score > 0
    ensures q == Bad <==> score < 0
    ensures q == Neutral <==> score == 0
  {
    if score > 0 then Good else if score < 0 then Bad else Neutral
  }

  predicate IsDigit(c: char)
  {
    '0' <= c <= '9'
  }

  /** A string the pattern `01[0125][0-9]{8}` matches in full. */
  predicate IsPhone(p: string)
  {
    |p| == PHONE_LENGTH && p[0] == '0' && p[1] == '1' && p[2] in "0125"
    && IsDigit(p[3]) && IsDigit(p[4]) && IsDigit(p[5]) && IsDigit(p[6])
    && IsDigit(p[7]) && IsDigit(p[8]) && IsDigit(p[9]) && IsDigit(p[10])
  }

  /** The pattern matches `s` at index `i`. */
  predicate PhoneAt(s: string, i: nat)
  {
    i + PHONE_LENGTH <= |s| && IsPhone(s[i..i + PHONE_LENGTH])
  }

  /**
   * `re.findall` from index `i`: on a match at `i` emit it and resume after
   * it, otherwise try `i + 1`.
   */
  function FindPhones(s: string, i: nat): (found: seq<string>)
    ensures forall k :: 0 <= k < |found| ==> |found[k]| == PHONE_LENGTH
    ensures i <= |s| ==> |found| * PHONE_LENGTH <= |s| - i
    decreases |s| - i
  {
    if i + PHONE_LENGTH > |s| then []
    else if IsPhone(s[i..i + PHONE_LENGTH]) then
      [s[i..i + PHONE_LENGTH]] + FindPhones(s, i + PHONE_LENGTH)
    else FindPhones(s, i + 1)
  }

  /** The scan finds something exactly when the pattern matches somewhere at or after `i`. */
  lemma {:induction false} FindPhonesNonEmptyIff(s: string, i: nat)
    ensures FindPhones(s, i) != [] <==> exists j: nat :: i <= j && PhoneAt(s, j)
    decreases |s| - i
  {
    if i + PHONE_LENGTH > |s| {
      assert forall j: nat :: i <= j ==> !PhoneAt(s, j);
    } else if IsPhone(s[i..i + PHONE_LENGTH]) {
      assert PhoneAt(s, i);
    } else {
      FindPhonesNonEmptyIff(s, i + 1);
      assert !PhoneAt(s, i);
      assert forall j: nat :: i <= j && PhoneAt(s, j) ==> i + 1 <= j;
    }
  }

  /** A text shorter than a phone number (a 10-digit `0111111111`, say) yields nothing. */
  lemma ShortTextHasNoPhone(s: string)
    requires |s| < PHONE_LENGTH
    ensures FindPhones(s, 0) == []
  {
  }

  /** Ten digits are one short of a number; a third digit outside `0125` is no mobile prefix. */
  lemma PhoneEdgeCases()
    ensures FindPhones("0111111111", 0) == [] && !IsPhone("01311111111")
    ensures IsPhone("01511111111") && FindPhones("01511111111", 0) == ["01511111111"]
  {
    ShortTextHasNoPhone("0111111111");
    assert "01511111111"[0..PHONE_LENGTH] == "01511111111";
  }

  /** Every number the scan reports from `i` on matches the pattern and occurs at or after `i`. */
  lemma {:induction false} FindPhonesSound(s: string, i: nat)
    ensures forall p :: p in FindPhones(s, i) ==> IsPhone(p) && exists j: nat :: i <= j && OccursAt(s, p, j)
    decreases |s| - i
  {
    if i + PHONE_LENGTH <= |s| {
      if IsPhone(s[i..i + PHONE_LENGTH]) {
        FindPhonesSound(s, i + PHONE_LENGTH);
        assert OccursAt(s, s[i..i + PHONE_LENGTH], i);
      } else {
        FindPhonesSound(s, i + 1);
      }
    }
  }

  /**
   * The scan is complete: a match at `j` that no earlier match overlaps is
   * reported. A match that starts inside an earlier one is skipped, as the
   * non-overlapping `re.findall` skips it.
   */
  lemma {:induction false} FindPhonesComplete(s: string, i: nat, j: nat)
    requires i <= j && PhoneAt(s, j)
    requires forall k: nat :: i <= k < j && j < k + PHONE_LENGTH ==> !PhoneAt(s, k)
    ensures s[j..j + PHONE_LENGTH] in FindPhones(s, i)
    decreases j - i
  {
    if i < j {
      if PhoneAt(s, i) {
        assert j >= i + PHONE_LENGTH;
        FindPhonesComplete(s, i + PHONE_LENGTH, j);
      } else {
        FindPhonesComplete(s, i + 1, j);
      }
    }
  }

  /** Every number the scan reports is a phone number occurring in the text. */
  lemma FoundPhonesOccur(text: string)
    ensures forall p :: p in FindPhones(text, 0) ==> IsPhone(p) && Contains(text, p)
  {
    FindPhonesSound(text, 0);
    forall p | p in FindPhones(text, 0) ensures Contains(text, p) {
      var j: nat :| OccursAt(text, p, j);
      ContainsAt(text, p, j);
    }
  }

  /** `set(xs)`. */
  function ElementsOf(xs: seq<string>): set<string>
  {
    if xs == [] then {} else {xs[0]} + ElementsOf(xs[1..])
  }

  lemma {:induction false} ElementsOfMembers(xs: seq<string>)
    ensures forall x :: x in ElementsOf(xs) <==> x in xs
  {
    if xs != [] {
      ElementsOfMembers(xs[1..]);
      assert xs == [xs[0]] + xs[1..];
    }
  }

  /** `Hunter.analyze_content`. */
  function AnalyzeContent(text: string): (a: Analysis)
    ensures a.sellerScore <= |SELLER_WORDS| && a.buyerScore <= |BUYER_WORDS|
    ensures a.totalScore == a.buyerScore - a.sellerScore
    ensures a.hasPhone <==> a.phones != {}
  {
    var lowered := Lower(text);
    var sellerCount := Hits(SELLER_WORDS, lowered);
    var buyerCount := Hits(BUYER_WORDS, lowered);
    var found := FindPhones(text, 0);
    var score := buyerCount - sellerCount;
    var phones := ElementsOf(found);
    Analysis(sellerCount, buyerCount, score, Verdict(score), phones, |found| > 0)
  }

  /**
   * What the analysis means: each score is the number of distinct keywords
   * present in the lower-cased text, the verdict follows the sign of their
   * difference, and a phone is reported exactly when the pattern matches.
   */
  lemma AnalyzeContentSpec(text: string)
    ensures var a := AnalyzeContent(text);
            && a.sellerScore == |HitSet(SELLER_WORDS, Lower(text))|
            && a.buyerScore == |HitSet(BUYER_WORDS, Lower(text))|
            && (a.quality == Good <==> a.buyerScore > a.sellerScore)
            && (a.quality == Bad <==> a.buyerScore < a.sellerScore)
            && (a.quality == Neutral <==> a.buyerScore == a.sellerScore)
            && (a.hasPhone <==> exists j: nat :: PhoneAt(text, j))
  {
    KeywordListsDistinct();
    HitsCountsKeywordsPresent(SELLER_WORDS, Lower(text));
    HitsCountsKeywordsPresent(BUYER_WORDS, Lower(text));
    FindPhonesNonEmptyIff(text, 0);
  }

  /** The analysis of a text with known keyword counts and exactly one phone match. */
  lemma AnalysisOfCounts(text: string, seller: nat, buyer: nat, phone: string)
    requires Hits(SELLER_WORDS, Lower(text)) == seller && Hits(BUYER_WORDS, Lower(text)) == buyer
    requires FindPhones(text, 0) == [phone]
    ensures AnalyzeContent(text) == Analysis(seller, buyer, buyer - seller, Verdict(buyer - seller), {phone}, true)
  {
    assert ElementsOf([phone]) == {phone} + ElementsOf([]);
  }

  /** Every reported phone is an 11-character match of the pattern taken from the text itself. */
  lemma AnalyzedPhonesOccur(text: string)
    ensures forall p :: p in AnalyzeContent(text).phones ==> IsPhone(p) && |p| == PHONE_LENGTH && Contains(text, p)
  {
    FoundPhonesOccur(text);
    ElementsOfMembers(FindPhones(text, 0));
  }

  /** The phone set holds exactly the numbers the scan reports, each once. */
  lemma AnalyzedPhonesAreScan(text: string)
    ensures forall p :: p in AnalyzeContent(text).phones <==> p in FindPhones(text, 0)
  {
    ElementsOfMembers(FindPhones(text, 0));
  }

  /** A match of the pattern that no earlier match overlaps is among the analysed phones. */
  lemma AnalyzedPhonesComplete(text: string, j: nat)
    requires PhoneAt(text, j)
    requires forall k: nat :: k < j && j < k + PHONE_LENGTH ==> !PhoneAt(text, k)
    ensures text[j..j + PHONE_LENGTH] in AnalyzeContent(text).phones
  {
    FindPhonesComplete(text, 0, j);
    AnalyzedPhonesAreScan(text);
  }

  /** One step of the scan over a match: report it and resume after it. */
  lemma FindPhonesMatchStep(s: string, i: nat)
    requires PhoneAt(s, i)
    ensures FindPhones(s, i) == [s[i..i + PHONE_LENGTH]] + FindPhones(s, i + PHONE_LENGTH)
  {
  }

  /** A number written twice is one entry of the phone set. */
  lemma DuplicatePhoneCollapses()
    ensures AnalyzeContent("01012345678" + " " + "01012345678").phones == {"01012345678"}
  {
    var p := "01012345678";
    var s := (p + " ") + p;
    assert IsPhone(p) && p[0..PHONE_LENGTH] == p;
    assert s[0..PHONE_LENGTH] == p;
    SliceOfAppend(p + " ", p, 0, PHONE_LENGTH);
    assert s[PHONE_LENGTH + 1..2 * PHONE_LENGTH + 1] == p;
    assert s[PHONE_LENGTH] == ' ';
    FindPhonesMatchStep(s, 0);
    FindPhonesSkipsNoZero(s, PHONE_LENGTH, PHONE_LENGTH + 1);
    FindPhonesMatchStep(s, PHONE_LENGTH + 1);
    assert FindPhones(s, 2 * PHONE_LENGTH + 1) == [];
    assert FindPhones(s, PHONE_LENGTH) == [p];
    assert FindPhones(s, 0) == [p, p];
    AnalyzedPhonesAreScan(s);
    assert forall x :: x in AnalyzeContent(s).phones <==> x in {p};
  }

  /** Beside a mobile number, a ten-digit `0111111111` yields nothing. */
  lemma TenDigitNumberIgnored()
    ensures AnalyzeContent("01512345678" + " " + "0111111111").phones == {"01512345678"}
  {
    var p := "01512345678";
    var s := (p + " ") + "0111111111";
    assert s[0..PHONE_LENGTH] == p;
    assert s[PHONE_LENGTH..2 * PHONE_LENGTH][0] == ' ';
    FindPhonesMatchStep(s, 0);
    assert FindPhones(s, PHONE_LENGTH + 1) == [];
    assert FindPhones(s, PHONE_LENGTH) == [];
    assert FindPhones(s, 0) == [p];
    AnalyzedPhonesAreScan(s);
    assert forall x :: x in AnalyzeContent(s).phones <==> x in {p};
  }

  /** The scan steps over a stretch without any `0`, where no match can start. */
  lemma {:induction false} FindPhonesSkipsNoZero(s: string, i: nat, k: nat)
    requires i <= k && k + PHONE_LENGTH <= |s|
    requires forall m :: i <= m < k ==> s[m] != '0'
    ensures FindPhones(s, i) == FindPhones(s, k)
    decreases k - i
  {
    if i < k {
      assert s[i..i + PHONE_LENGTH][0] == s[i];
      FindPhonesSkipsNoZero(s, i + 1, k);
    }
  }

  /** A text made of some `0`-free words followed by one phone number yields that number alone. */
  lemma FindTrailingPhone(words: string, phone: string)
    requires '0' !in words && IsPhone(phone)
    ensures FindPhones(words + phone, 0) == [phone]
  {
    var s := words + phone;
    forall m | 0 <= m < |words| ensures s[m] != '0' {
      assert s[m] == words[m];
    }
    FindPhonesSkipsNoZero(s, 0, |words|);
    assert s[|words|..|words| + PHONE_LENGTH] == phone;
  }

  const NEUTRAL_LEAD := "مطلوب شقة " + "للبيع" + " فرصة " + "01012345678"
  const GOOD_LEAD := "مطلوب شقة بسعر" + " " + "مناسب " + "01098765432"

  /** No keyword of `words` occurs: the score is zero. */
  lemma {:induction false} HitsOfAbsent(words: seq<string>, text: string)
    requires forall w :: w in words ==> !Contains(text, w)
    ensures Hits(words, text) == 0
  {
    if words != [] {
      assert words[0] in words;
      assert forall w :: w in words[1..] ==> w in words;
      HitsOfAbsent(words[1..], text);
    }
  }

  /** Only the first keyword of `words` occurs: the score is one. */
  lemma HitsOfFirstOnly(words: seq<string>, text: string)
    requires words != [] && Contains(text, words[0])
    requires forall w :: w in words[1..] ==> !Contains(text, w)
    ensures Hits(words, text) == 1
  {
    HitsOfAbsent(words[1..], text);
  }

  lemma NeutralLeadHasKeywords()
    ensures Contains(NEUTRAL_LEAD, SELLER_WORDS[0]) && Contains(NEUTRAL_LEAD, BUYER_WORDS[0])
  {
    ContainsInfix("مطلوب شقة ", "للبيع", " فرصة " + "01012345678");
    assert NEUTRAL_LEAD == "مطلوب شقة " + "للبيع" + (" فرصة " + "01012345678");
    ContainsInfix([], "مطلوب", " شقة " + "للبيع" + " فرصة " + "01012345678");
    assert NEUTRAL_LEAD == [] + "مطلوب" + (" شقة " + "للبيع" + " فرصة " + "01012345678");
  }

  lemma NeutralLeadLacksSellerWords()
    ensures forall w :: w in SELLER_WORDS[1..] ==> !Contains(NEUTRAL_LEAD, w)
  {
    MarkedWordsNotContained(NEUTRAL_LEAD, SELLER_WORDS[1..], ['f', 'س', 'س', 'ك', 'س']);
  }

  lemma NeutralLeadLacksBuyerWords()
    ensures forall w :: w in BUYER_WORDS[1..] ==> !Contains(NEUTRAL_LEAD, w)
  {
    MarkedWordsNotContained(NEUTRAL_LEAD, BUYER_WORDS[1..], ['ح', 'ز', 'أ', 'ء', 'b', 'w']);
  }

  lemma NeutralLeadScores()
    ensures Hits(SELLER_WORDS, NEUTRAL_LEAD) == 1 && Hits(BUYER_WORDS, NEUTRAL_LEAD) == 1
  {
    NeutralLeadHasKeywords();
    NeutralLeadLacksSellerWords();
    HitsOfFirstOnly(SELLER_WORDS, NEUTRAL_LEAD);
    NeutralLeadLacksBuyerWords();
    HitsOfFirstOnly(BUYER_WORDS, NEUTRAL_LEAD);
  }

  lemma NeutralLeadLowered()
    ensures Lower(NEUTRAL_LEAD) == NEUTRAL_LEAD
  {
    LowerOfNoCapitals(NEUTRAL_LEAD);
  }

  lemma NeutralLeadPhone()
    ensures FindPhones(NEUTRAL_LEAD, 0) == ["01012345678"]
  {
    FindTrailingPhone("مطلوب شقة " + "للبيع" + " فرصة ", "01012345678");
  }

  /** "مطلوب" and "للبيع" cancel out: the verdict is neutral although a phone is present. */
  lemma NeutralLeadExample()
    ensures var a := AnalyzeContent(NEUTRAL_LEAD);
            a.buyerScore == 1 && a.sellerScore == 1 && a.totalScore == 0
            && a.quality == Neutral && a.hasPhone && a.phones == {"01012345678"}
  {
    NeutralLeadLowered();
    NeutralLeadScores();
    NeutralLeadPhone();
    AnalysisOfCounts(NEUTRAL_LEAD, 1, 1, "01012345678");
  }

  /**
   * Every letter of "سمسار" occurs in the good lead, so it is ruled out
   * piecewise: its `ا` is missing before the space and its `ر` after it.
   */
  lemma GoodLeadLacksBroker()
    ensures !Contains(GOOD_LEAD, "سمسار")
  {
    NotContainedAcrossGap("مطلوب شقة بسعر", ' ', "مناسب " + "01098765432", "سمسار", 'ا', 'ر');
    assert GOOD_LEAD == "مطلوب شقة بسعر" + [' '] + ("مناسب " + "01098765432");
  }

  lemma GoodLeadLacksOtherSellerWords()
    ensures forall w :: w in ["للبيع", "for sale", "وسيط", "شركة", "مؤسسة"] ==> !Contains(GOOD_LEAD, w)
  {
    MarkedWordsNotContained(GOOD_LEAD, ["للبيع", "for sale", "وسيط", "شركة", "مؤسسة"], ['ي', 'f', 'ي', 'ك', 'ؤ']);
  }

  lemma GoodLeadSellerWords()
    ensures forall w :: w in SELLER_WORDS ==> !Contains(GOOD_LEAD, w)
  {
    GoodLeadLacksBroker();
    GoodLeadLacksOtherSellerWords();
  }

  lemma GoodLeadHasBuyerWord()
    ensures Contains(GOOD_LEAD, BUYER_WORDS[0])
  {
    ContainsInfix([], "مطلوب", " شقة بسعر" + " " + "مناسب " + "01098765432");
    assert GOOD_LEAD == [] + "مطلوب" + (" شقة بسعر" + " " + "مناسب " + "01098765432");
  }

  lemma GoodLeadLacksBuyerWords()
    ensures forall w :: w in BUYER_WORDS[1..] ==> !Contains(GOOD_LEAD, w)
  {
    MarkedWordsNotContained(GOOD_LEAD, BUYER_WORDS[1..], ['ح', 'ز', 'أ', 'ء', 'b', 'w']);
  }

  lemma GoodLeadScores()
    ensures Hits(SELLER_WORDS, GOOD_LEAD) == 0 && Hits(BUYER_WORDS, GOOD_LEAD) == 1
  {
    GoodLeadSellerWords();
    HitsOfAbsent(SELLER_WORDS, GOOD_LEAD);
    GoodLeadHasBuyerWord();
    GoodLeadLacksBuyerWords();
    HitsOfFirstOnly(BUYER_WORDS, GOOD_LEAD);
  }

  lemma GoodLeadLowered()
    ensures Lower(GOOD_LEAD) == GOOD_LEAD
  {
    LowerOfNoCapitals(GOOD_LEAD);
  }

  lemma GoodLeadPhone()
    ensures FindPhones(GOOD_LEAD, 0) == ["01098765432"]
  {
    FindTrailingPhone("مطلوب شقة بسعر" + " " + "مناسب ", "01098765432");
  }

  /** A buyer keyword alone makes the text good, and its one phone is extracted. */
  lemma GoodLeadExample()
    ensures var a := AnalyzeContent(GOOD_LEAD);
            a.buyerScore == 1 && a.sellerScore == 0 && a.quality == Good
            && a.hasPhone && a.phones == {"01098765432"}
  {
    GoodLeadLowered();
    GoodLeadScores();
    GoodLeadPhone();
    AnalysisOfCounts(GOOD_LEAD, 0, 1, "01098765432");
  }
}
