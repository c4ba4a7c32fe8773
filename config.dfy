/**
 * The configuration read from the environment (config.py, copied in
 * app.py:14-67): the comma-separated search-key list, the role table, and the
 * validation report with its status summary.
 */
module Config {
  import opened Text
  import opened Basics

  const APP_NAME := "Hunter Pro"
  const VERSION := "4.0"

  /** A parsed search key: non-empty, no surrounding whitespace, no comma. */
  predicate WellFormedKey(k: string)
  {
    k != [] && Trimmed(k) && ',' !in k
  }

  /** `[k.strip() for k in parts if k.strip()]`. */
  function KeepStripped(parts: seq<string>): (keys: seq<string>)
    ensures |keys| <= |parts|
    ensures forall k :: k in keys ==> k != [] && Trimmed(k)
  {
    if parts == [] then []
    else
      var k := Strip(parts[0]);
      (if k == [] then [] else [k]) + KeepStripped(parts[1..])
  }

  /** `SERPER_KEYS`: the raw environment value stripped, split on commas, each part stripped, blanks dropped. */
  function ParseKeys(raw: string): (keys: seq<string>)
    ensures forall k :: k in keys ==> WellFormedKey(k)
  {
    var parts := Split(Strip(raw), ',');
    var keys := KeepStripped(parts);
    assert forall k :: k in keys ==> ',' !in k by {
      KeepStrippedFromParts(parts);
      forall k | k in keys ensures ',' !in k {
        var p :| p in parts && k == Strip(p);
        StripKeepsCharsOut(p);
      }
    }
    keys
  }

  /** Each kept key is the stripped form of one of the parts. */
  lemma {:induction false} KeepStrippedFromParts(parts: seq<string>)
    ensures forall k :: k in KeepStripped(parts) ==> exists p :: p in parts && k == Strip(p)
  {
    if parts != [] {
      KeepStrippedFromParts(parts[1..]);
      var k0 := Strip(parts[0]);
      assert KeepStripped(parts) == (if k0 == [] then [] else [k0]) + KeepStripped(parts[1..]);
      forall k | k in KeepStripped(parts) ensures exists p :: p in parts && k == Strip(p) {
        if k in KeepStripped(parts[1..]) {
          var p :| p in parts[1..] && k == Strip(p);
          assert p in parts;
        } else {
          assert parts[0] in parts && k == Strip(parts[0]);
        }
      }
    }
  }

  /** Characters absent from a string stay absent once it is stripped. */
  lemma StripKeepsCharsOut(s: string)
    ensures forall c :: c in Strip(s) ==> c in s
  {
    var r := Strip(s);
    var i, j :| 0 <= i <= j <= |s| && r == s[i..j];
    SliceCharsIn(s, i, j);
  }

  lemma SliceCharsIn(s: string, i: nat, j: nat)
    requires i <= j <= |s|
    ensures forall c :: c in s[i..j] ==> c in s
  {
    forall c | c in s[i..j] ensures c in s {
      var m :| 0 <= m < j - i && s[i..j][m] == c;
      assert s[i + m] == c;
    }
  }

  /** The text a configuration file would hold for a list of keys. */
  function JoinKeys(keys: seq<string>): string
  {
    if keys == [] then "" else Join(keys, ',')
  }

  /** Parsing recovers, in order, any list of well-formed keys written comma-separated. */
  lemma {:induction false} ParseKeysJoin(keys: seq<string>)
    requires forall k :: k in keys ==> WellFormedKey(k)
    ensures ParseKeys(JoinKeys(keys)) == keys
  {
    if keys == [] {
      assert Strip("") == "";
      assert Split("", ',') == [""];
    } else {
      var raw := Join(keys, ',');
      assert keys[0] in keys && keys[|keys| - 1] in keys;
      JoinFirst(keys, ',');
      JoinLast(keys, ',');
      assert Trimmed(raw);
      StripTrimmed(raw);
      SplitJoin(keys, ',');
      KeepStrippedOfKeys(keys);
    }
  }

  lemma {:induction false} KeepStrippedOfKeys(keys: seq<string>)
    requires forall k :: k in keys ==> WellFormedKey(k)
    ensures KeepStripped(keys) == keys
  {
    if keys != [] {
      assert keys[0] in keys;
      StripTrimmed(keys[0]);
      KeepStrippedStep(keys);
      var tail := keys[1..];
      assert forall k :: k in tail ==> k in keys;
      KeepStrippedOfKeys(tail);
      HeadTail(keys);
    }
  }

  /** A single part gives its stripped form, or nothing when it is blank. */
  lemma KeepStrippedSingle(p: string)
    ensures KeepStripped([p]) == if IsBlank(p) then [] else [Strip(p)]
  {
    assert [p][1..] == [];
  }

  /** Keys are kept part by part, in the order of the parts. */
  lemma {:induction false} KeepStrippedAppend(a: seq<string>, b: seq<string>)
    ensures KeepStripped(a + b) == KeepStripped(a) + KeepStripped(b)
  {
    if a != [] {
      var k := Strip(a[0]);
      var head := if k == [] then [] else [k];
      assert (a + b)[0] == a[0] && (a + b)[1..] == a[1..] + b;
      KeepStrippedAppend(a[1..], b);
      AppendAssoc(head, KeepStripped(a[1..]), KeepStripped(b));
    } else {
      assert a + b == b;
    }
  }

  /** Stripping removes exactly the blank padding around a trimmed, non-empty core. */
  lemma StripPadded(a: string, k: string, b: string)
    requires IsBlank(a) && IsBlank(b) && k != [] && Trimmed(k)
    ensures Strip(a + k + b) == k
  {
    var s := a + k + b;
    var e := |a| + |k|;
    assert s[..|a|] == a && s[|a|..e] == k && s[e..] == b;
    StripAt(s, |a|, e);
  }

  /** The stripped string runs from the first to the last non-whitespace character. */
  lemma StripAt(s: string, lo: nat, hi: nat)
    requires lo < hi <= |s| && IsBlank(s[..lo]) && IsBlank(s[hi..])
    requires !IsSpace(s[lo]) && !IsSpace(s[hi - 1])
    ensures Strip(s) == s[lo..hi]
  {
    SuffixSlices(s, lo, hi);
    calc {
      Strip(s);
      == { StripIsTrims(s); }
      TrimRight(TrimLeft(s));
      == { TrimLeftAt(s, lo); }
      TrimRight(s[lo..]);
      == { TrimRightAt(s[lo..], hi - lo); }
      s[lo..][..hi - lo];
    }
  }

  lemma StripIsTrims(s: string)
    ensures Strip(s) == TrimRight(TrimLeft(s))
  {
  }

  lemma SuffixSlices(s: string, lo: nat, hi: nat)
    requires lo < hi <= |s|
    ensures s[lo..][hi - lo..] == s[hi..] && s[lo..][..hi - lo] == s[lo..hi]
    ensures s[lo..][hi - lo - 1] == s[hi - 1]
  {
  }

  /** `lstrip` stops at the first non-whitespace character. */
  lemma {:induction false} TrimLeftAt(s: string, lo: nat)
    requires lo < |s| && IsBlank(s[..lo]) && !IsSpace(s[lo])
    ensures TrimLeft(s) == s[lo..]
  {
    if lo > 0 {
      assert IsSpace(s[..lo][0]);
      var t := s[1..];
      BlankSplit(s[..lo], 1);
      assert s[..lo][1..] == t[..lo - 1];
      assert t[lo - 1] == s[lo];
      TrimLeftAt(t, lo - 1);
      assert t[lo - 1..] == s[lo..];
    }
  }

  /** `rstrip` stops at the last non-whitespace character. */
  lemma {:induction false} TrimRightAt(s: string, hi: nat)
    requires 0 < hi <= |s| && IsBlank(s[hi..]) && !IsSpace(s[hi - 1])
    ensures TrimRight(s) == s[..hi]
    decreases |s|
  {
    if hi < |s| {
      assert IsSpace(s[hi..][|s| - 1 - hi]);
      var t := s[..|s| - 1];
      assert forall m :: 0 <= m < |t| - hi ==> t[hi..][m] == s[hi..][m];
      assert t[hi - 1] == s[hi - 1];
      TrimRightAt(t, hi);
      assert t[..hi] == s[..hi];
    }
  }

  /** Two keys written with padding and a blank entry between them, as in `" k1 , ,k2 "`, are both kept, in order and stripped. */
  lemma PaddedKeysKept(k1: string, k2: string)
    requires WellFormedKey(k1) && WellFormedKey(k2)
    ensures ParseKeys(" " + k1 + " , ," + k2 + " ") == [k1, k2]
  {
    var raw := " " + k1 + " , ," + k2 + " ";
    var parts := PaddedPartsSplit(k1, k2);
    PaddedPartsKept(k1, k2, parts);
    assert ParseKeys(raw) == KeepStripped(Split(Strip(raw), ','));
  }

  /** The parts of the padded pair: `k1 `, a blank, then `k2`. */
  lemma PaddedPartsSplit(k1: string, k2: string) returns (parts: seq<string>)
    requires WellFormedKey(k1) && WellFormedKey(k2)
    ensures parts == [k1 + " "] + ([" "] + [k2])
    ensures Split(Strip(" " + k1 + " , ," + k2 + " "), ',') == parts
  {
    var inner := PaddedPairStripped(k1, k2);
    parts := [k1 + " "] + ([" "] + [k2]);
    JoinPaddedParts(k1, k2, parts, inner);
    SplitJoin(parts, ',');
  }

  /** Stripping the padded pair removes only its outer spaces. */
  lemma PaddedPairStripped(k1: string, k2: string) returns (inner: string)
    requires WellFormedKey(k1) && WellFormedKey(k2)
    ensures inner == (k1 + " ") + [','] + (" " + [','] + k2)
    ensures Strip(" " + k1 + " , ," + k2 + " ") == inner
  {
    inner := (k1 + " ") + [','] + (" " + [','] + k2);
    assert inner[0] == k1[0] && inner[|inner| - 1] == k2[|k2| - 1];
    assert " " + k1 + " , ," + k2 + " " == " " + inner + " ";
    StripPadded(" ", inner, " ");
  }

  lemma JoinPaddedParts(k1: string, k2: string, parts: seq<string>, inner: string)
    requires WellFormedKey(k1) && WellFormedKey(k2)
    requires parts == [k1 + " "] + ([" "] + [k2])
    requires inner == (k1 + " ") + [','] + (" " + [','] + k2)
    ensures Join(parts, ',') == inner
    ensures forall p :: p in parts ==> ',' !in p
  {
    var rest := [" "] + [k2];
    assert parts[1..] == rest && rest[1..] == [k2];
    assert Join([k2], ',') == k2;
    assert Join(rest, ',') == " " + [','] + k2;
    assert ',' !in k1 + " " && ',' !in " ";
  }

  /** Stripping the padded pair's parts keeps `k1` and `k2` and drops the blank. */
  lemma PaddedPartsKept(k1: string, k2: string, parts: seq<string>)
    requires WellFormedKey(k1) && WellFormedKey(k2)
    requires parts == [k1 + " "] + ([" "] + [k2])
    ensures KeepStripped(parts) == [k1, k2]
  {
    TrailingSpaceStripped(k1);
    BlankThenKeyKept(k2);
    KeepStrippedCons(k1 + " ", [" "] + [k2]);
  }

  lemma TrailingSpaceStripped(k: string)
    requires WellFormedKey(k)
    ensures !IsBlank(k + " ") && Strip(k + " ") == k
  {
    StripPadded([], k, " ");
    assert [] + k + " " == k + " ";
    assert (k + " ")[0] == k[0];
  }

  lemma BlankThenKeyKept(k: string)
    requires WellFormedKey(k)
    ensures KeepStripped([" "] + [k]) == [k]
  {
    assert !IsBlank(k) && IsBlank(" ");
    StripTrimmed(k);
    KeepStrippedCons(k, []);
    assert [k] + [] == [k];
    KeepStrippedCons(" ", [k]);
  }

  /** One step of `KeepStripped`, whatever the first part. */
  lemma KeepStrippedCons(p: string, rest: seq<string>)
    ensures KeepStripped([p] + rest) == (if IsBlank(p) then [] else [Strip(p)]) + KeepStripped(rest)
  {
    assert ([p] + rest)[1..] == rest;
  }

  /** One step of `KeepStripped` over a part that stripping leaves as it is. */
  lemma KeepStrippedStep(parts: seq<string>)
    requires parts != [] && parts[0] != [] && Strip(parts[0]) == parts[0]
    ensures KeepStripped(parts) == [parts[0]] + KeepStripped(parts[1..])
  {
  }

  /** Input made only of whitespace and commas (the empty string among it) configures no key. */
  lemma {:induction false} ParseKeysOfSeparatorsOnly(raw: string)
    requires forall c :: c in raw ==> IsSpace(c) || c == ','
    ensures ParseKeys(raw) == []
  {
    var stripped := Strip(raw);
    StripKeepsCharsOut(raw);
    assert forall c :: c in stripped ==> IsSpace(c) || c == ',';
    var parts := Split(stripped, ',');
    SplitOfSeparatorsOnly(stripped);
    KeepStrippedOfBlanks(parts);
  }

  lemma SplitOfSeparatorsOnly(s: string)
    requires forall c :: c in s ==> IsSpace(c) || c == ','
    ensures forall p :: p in Split(s, ',') ==> IsBlank(p)
  {
    var parts := Split(s, ',');
    SplitPartsChars(s, ',');
    forall p | p in parts ensures IsBlank(p) {
      forall i | 0 <= i < |p| ensures IsSpace(p[i]) {
        assert p[i] in p;
      }
    }
  }

  lemma {:induction false} SplitPartsChars(s: string, sep: char)
    ensures forall p, c :: p in Split(s, sep) && c in p ==> c in s
    decreases |s|
  {
    if s != [] {
      SplitPartsChars(s[1..], sep);
      var rest := Split(s[1..], sep);
      assert forall c :: c in s[1..] ==> c in s;
      assert forall p :: p in rest[1..] ==> p in rest;
    }
  }

  lemma {:induction false} KeepStrippedOfBlanks(parts: seq<string>)
    requires forall p :: p in parts ==> IsBlank(p)
    ensures KeepStripped(parts) == []
  {
    if parts != [] {
      assert forall p :: p in parts[1..] ==> p in parts;
      KeepStrippedOfBlanks(parts[1..]);
    }
  }

  /** The role table: which permissions each role holds; `"*"` stands for all of them. */
  const ROLES: map<string, seq<string>> := map[
    "owner" := ["*"],
    "admin" := ["view", "create", "edit", "delete", "export"],
    "manager" := ["view", "create", "edit"],
    "agent" := ["view", "create"],
    "viewer" := ["view"]
  ]

  /** Each role below the owner holds every permission of the role beneath it. */
  lemma RolesNest()
    ensures forall p :: p in ROLES["viewer"] ==> p in ROLES["agent"]
    ensures forall p :: p in ROLES["agent"] ==> p in ROLES["manager"]
    ensures forall p :: p in ROLES["manager"] ==> p in ROLES["admin"]
    ensures "*" in ROLES["owner"]
    ensures forall r :: r in ROLES && r != "owner" ==> "*" !in ROLES[r]
  {
  }

  /** The settings the checks look at, after `.strip()` and key parsing. */
  datatype Settings = Settings(supabaseUrl: string, supabaseKey: string, serperKeys: seq<string>)

  /** The five messages `validate` can report. */
  datatype Issue = UrlMissing | KeyMissing | KeysMissing | UrlNotHttps | SingleKey

  predicate IsError(i: Issue)
  {
    i.UrlMissing? || i.KeyMissing? || i.KeysMissing?
  }

  /** The condition under which each message is reported. */
  predicate Raises(s: Settings, i: Issue)
  {
    match i
    case UrlMissing => s.supabaseUrl == ""
    case UrlNotHttps => s.supabaseUrl != "" && !StartsWith(s.supabaseUrl, "https://")
    case KeyMissing => s.supabaseKey == ""
    case KeysMissing => s.serperKeys == []
    case SingleKey => |s.serperKeys| == 1
  }

  /** The order in which the checks run; errors and warnings each keep it. */
  function Rank(i: Issue): nat
  {
    match i
    case UrlMissing => 0
    case KeyMissing => 1
    case KeysMissing => 2
    case UrlNotHttps => 3
    case SingleKey => 4
  }

  predicate InRankOrder(issues: seq<Issue>)
  {
    forall j, k :: 0 <= j < k < |issues| ==> Rank(issues[j]) < Rank(issues[k])
  }

  datatype Validation = Validation(valid: bool, errors: seq<Issue>, warnings: seq<Issue>)

  /** `Config.validate`: collects the errors and warnings, checking the URL, the database key and the search keys in turn. */
  method Validate(s: Settings) returns (v: Validation)
    ensures v.valid <==> v.errors == []
    ensures forall i :: i in v.errors <==> IsError(i) && Raises(s, i)
    ensures forall i :: i in v.warnings <==> !IsError(i) && Raises(s, i)
    ensures InRankOrder(v.errors) && InRankOrder(v.warnings)
  {
    var errors: seq<Issue> := [];
    var warnings: seq<Issue> := [];
    if s.supabaseUrl == "" {
      errors := errors + [UrlMissing];
    } else if !StartsWith(s.supabaseUrl, "https://") {
      warnings := warnings + [UrlNotHttps];
    }
    if s.supabaseKey == "" {
      errors := errors + [KeyMissing];
    }
    if s.serperKeys == [] {
      errors := errors + [KeysMissing];
    } else if |s.serperKeys| < 2 {
      warnings := warnings + [SingleKey];
    }
    v := Validation(|errors| == 0, errors, warnings);
  }

  datatype Status = Status(
    app: string,
    version: string,
    databaseConfigured: bool,
    searchConfigured: bool,
    keysCount: nat,
    valid: bool,
    issues: seq<Issue>)

  /** Errors in check order followed by warnings in check order are in check order, errors first. */
  lemma ErrorsThenWarnings(errors: seq<Issue>, warnings: seq<Issue>)
    requires InRankOrder(errors) && InRankOrder(warnings)
    requires forall i :: i in errors ==> IsError(i)
    requires forall i :: i in warnings ==> !IsError(i)
    ensures InRankOrder(errors + warnings)
    ensures forall j, k :: 0 <= j < k < |errors + warnings| && IsError((errors + warnings)[k]) ==> IsError((errors + warnings)[j])
  {
    var issues := errors + warnings;
    forall j, k | 0 <= j < k < |issues|
      ensures Rank(issues[j]) < Rank(issues[k])
      ensures IsError(issues[k]) ==> IsError(issues[j])
    {
      if k < |errors| {
        assert issues[j] == errors[j] && issues[k] == errors[k];
        assert errors[j] in errors;
      } else if j >= |errors| {
        assert issues[j] == warnings[j - |errors|] && issues[k] == warnings[k - |errors|];
        assert warnings[k - |errors|] in warnings;
      } else {
        assert issues[j] == errors[j] && errors[j] in errors;
        assert issues[k] == warnings[k - |errors|] && warnings[k - |errors|] in warnings;
      }
    }
  }

  /** `Config.get_status`: the validation report folded into one summary. */
  method GetStatus(s: Settings) returns (st: Status)
    ensures st.app == APP_NAME && st.version == VERSION
    ensures st.databaseConfigured <==> s.supabaseUrl != "" && s.supabaseKey != ""
    ensures st.keysCount == |s.serperKeys|
    ensures st.searchConfigured <==> st.keysCount > 0
    ensures forall i :: i in st.issues <==> Raises(s, i)
    ensures InRankOrder(st.issues)
    ensures st.valid <==> forall i :: i in st.issues ==> !IsError(i)
    ensures forall j, k :: 0 <= j < k < |st.issues| && IsError(st.issues[k]) ==> IsError(st.issues[j])
  {
    var v := Validate(s);
    var issues := v.errors + v.warnings;
    assert forall i :: i in issues <==> i in v.errors || i in v.warnings;
    ErrorsThenWarnings(v.errors, v.warnings);
    assert v.errors != [] ==> v.errors[0] in issues;
    st := Status(APP_NAME, VERSION, s.supabaseUrl != "" && s.supabaseKey != "",
                 |s.serperKeys| > 0, |s.serperKeys|, v.valid, issues);
  }
}
