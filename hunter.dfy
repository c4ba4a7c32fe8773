/**
 * The lead-discovery engine `Hunter` (hunter.py:10-121, repeated in
 * app.py:211-322 with the same behaviour): round-robin rotation over the search keys, pacing of
 * outbound requests, and the hunt that classifies every search result and
 * stores the good leads with their phone numbers.
 *
 * The outside world is abstracted: time is a `Clock` object that only moves
 * forward, the search provider is a function from the request to its
 * outcome, and the leads table is a `LeadStore` whose insert may fail.
 */
module LeadHunter {
  import opened Basics
  import opened Text
  import opened Classifier

  // ---------------------------------------------------------------------
  // Key rotation and pacing, stated on the history of the hunter
  // ---------------------------------------------------------------------

  /** Draw number `j` (counted from the first) hands out key `j mod K`. */
  ghost predicate RoundRobin(keys: seq<string>, issued: seq<string>)
  {
    keys != [] ==> forall j :: 0 <= j < |issued| ==> issued[j] == keys[j % |keys|]
  }

  /** The keys in configured order, starting at position `i` and wrapping round. */
  function Rotation(keys: seq<string>, i: nat): seq<string>
    requires i <= |keys|
  {
    keys[i..] + keys[..i]
  }

  lemma MulMono(a: int, k: int)
    requires a >= 1 && k > 0
    ensures a * k >= k
  {
    assert a * k == (a - 1) * k + k;
    assert (a - 1) * k >= 0;
  }

  /** The residue of `q * k + r` is `r` when `0 <= r < k`. */
  lemma ModUnique(x: int, q: int, r: int, k: int)
    requires k > 0 && 0 <= r < k && x == q * k + r
    ensures x % k == r
  {
    var q', r' := x / k, x % k;
    assert x == q' * k + r';
    assert (q - q') * k == q * k - q' * k == r' - r;
    assert (q' - q) * k == q' * k - q * k == r - r';
    if q > q' {
      MulMono(q - q', k);
    } else if q < q' {
      MulMono(q' - q, k);
    }
  }

  /** Moving `t <= k` places on from `s` moves the residue the same way, wrapping once at most. */
  lemma ModShift(s: nat, t: nat, k: nat)
    requires k > 0 && t <= k
    ensures (s + t) % k == if s % k + t < k then s % k + t else s % k + t - k
  {
    var q, i := s / k, s % k;
    assert s == q * k + i;
    if i + t < k {
      ModUnique(s + t, q, i + t, k);
    } else {
      assert s + t == (q + 1) * k + (i + t - k);
      ModUnique(s + t, q + 1, i + t - k, k);
    }
  }

  /**
   * Any `K` consecutive draws hand out the whole pool once each, in
   * configured order from where the cursor stood.
   */
  lemma {:induction false} WindowIsRotation(keys: seq<string>, issued: seq<string>, s: nat)
    requires keys != [] && RoundRobin(keys, issued) && s + |keys| <= |issued|
    ensures s % |keys| <= |keys|
    ensures issued[s..s + |keys|] == Rotation(keys, s % |keys|)
    ensures multiset(issued[s..s + |keys|]) == multiset(keys)
  {
    var k, i := |keys|, s % |keys|;
    var w := issued[s..s + k];
    var rot := Rotation(keys, i);
    forall t | 0 <= t < k ensures w[t] == rot[t] {
      ModShift(s, t, k);
      assert w[t] == issued[s + t] == keys[(s + t) % k];
    }
    assert keys == keys[..i] + keys[i..];
  }

  /** From a fresh cursor: the first `K` draws are the keys in order, and draw `K + 1` repeats the first. */
  lemma FirstRoundInOrder(keys: seq<string>, issued: seq<string>)
    requires keys != [] && RoundRobin(keys, issued) && |issued| > |keys|
    ensures issued[..|keys|] == keys
    ensures issued[|keys|] == issued[0] == keys[0]
  {
    WindowIsRotation(keys, issued, 0);
    assert issued[..|keys|] == issued[0..|keys|];
    ModShift(0, |keys|, |keys|);
  }

  /** Each draw repeats the one `K` draws before it. */
  lemma DrawsRepeat(keys: seq<string>, issued: seq<string>, j: nat)
    requires keys != [] && RoundRobin(keys, issued) && j + |keys| < |issued|
    ensures issued[j + |keys|] == issued[j]
  {
    ModShift(j, |keys|, |keys|);
  }

  /** Handing out the key under the cursor keeps the rotation, and the cursor moves on by one. */
  lemma RoundRobinStep(keys: seq<string>, issued: seq<string>)
    requires keys != [] && RoundRobin(keys, issued)
    ensures RoundRobin(keys, issued + [keys[|issued| % |keys|]])
    ensures (|issued| % |keys| + 1) % |keys| == (|issued| + 1) % |keys|
  {
    ModShift(|issued|, 1, |keys|);
    if |issued| % |keys| + 1 < |keys| {
      ModUnique(|issued| % |keys| + 1, 0, |issued| % |keys| + 1, |keys|);
    } else {
      ModUnique(|keys|, 1, 0, |keys|);
    }
  }

  /** Consecutive grant times are at least `d` apart. */
  ghost predicate Spaced(grants: seq<int>, d: nat)
  {
    forall j :: 0 < j < |grants| ==> grants[j - 1] + d <= grants[j]
  }

  /** `n` further grants after grant `i` take at least `n * d` ticks. */
  lemma {:induction false} SpacedSpan(grants: seq<int>, d: nat, i: nat, j: nat)
    requires Spaced(grants, d) && i <= j < |grants|
    ensures grants[i] + (j - i) * d <= grants[j]
    decreases j - i
  {
    if i < j {
      SpacedSpan(grants, d, i, j - 1);
      assert (j - i) * d == (j - 1 - i) * d + d;
    }
  }

  // ---------------------------------------------------------------------
  // Results, leads and the store
  // ---------------------------------------------------------------------

  /** One entry of the provider's `organic` list; a missing field is `None`. */
  datatype Item = Item(title: Option<string>, snippet: Option<string>, link: Option<string>)

  /** `item.get(field, '')`. */
  function OrEmpty(o: Option<string>): string
  {
    if o.Some? then o.value else ""
  }

  /** The text that is classified: title and snippet joined by one space. */
  function Content(item: Item): string
  {
    OrEmpty(item.title) + " " + OrEmpty(item.snippet)
  }

  /** The content reads as the title (empty when absent), one space, then the snippet. */
  lemma ContentLayout(item: Item)
    ensures var c, t := Content(item), OrEmpty(item.title);
      |c| == |t| + 1 + |OrEmpty(item.snippet)| && c[..|t|] == t && c[|t|] == ' ' && c[|t| + 1..] == OrEmpty(item.snippet)
  {
  }

  /** The columns of a lead row; `created_at` is a wall-clock string and is not modelled. */
  datatype Lead = Lead(phone: string, name: Option<string>, source: string, notes: string, createdBy: string)

  const NOTES_PREFIX := "المصدر: "
  const NOTES_LIMIT: nat := 200

  /** The row inserted for one phone found in one item. */
  function MakeLead(query: string, userId: string, item: Item, phone: string): (l: Lead)
    ensures l.phone == phone && l.name.None? && l.createdBy == userId
  {
    Lead(phone, None, "hunter:" + query,
         NOTES_PREFIX + OrEmpty(item.link) + "\n" + Take(Content(item), NOTES_LIMIT) + "...",
         userId)
  }

  /**
   * A lead names its query as source and its author as creator, and its notes
   * give the link and then at most the first 200 characters of the content;
   * content that short appears in full.
   */
  lemma LeadLayout(query: string, userId: string, item: Item, phone: string)
    ensures var l := MakeLead(query, userId, item, phone);
            var head := NOTES_PREFIX + OrEmpty(item.link) + "\n";
            && l.phone == phone && l.name == None && l.createdBy == userId
            && StartsWith(l.source, "hunter:") && l.source[|"hunter:"|..] == query
            && StartsWith(l.notes, head)
            && |l.notes| == |head| + Min(|Content(item)|, NOTES_LIMIT) + 3
            && l.notes[|head|..|head| + Min(|Content(item)|, NOTES_LIMIT)] == Content(item)[..Min(|Content(item)|, NOTES_LIMIT)]
            && l.notes[|l.notes| - 3..] == "..."
            && (|Content(item)| <= NOTES_LIMIT ==> Contains(l.notes, Content(item)))
  {
    var l := MakeLead(query, userId, item, phone);
    var head := NOTES_PREFIX + OrEmpty(item.link) + "\n";
    var body := Take(Content(item), NOTES_LIMIT);
    assert l.notes == head + body + "...";
    assert l.notes[..|head|] == head;
    assert l.notes[|head|..|head| + |body|] == body;
    assert l.notes[|head| + |body|..] == "...";
    if |Content(item)| <= NOTES_LIMIT {
      assert body == Content(item);
      ContainsInfix(head, Content(item), "...");
    }
  }

  /** The text is good and has a phone: its phones are worth storing. */
  predicate Qualifies(a: Analysis)
  {
    a.quality == Good && a.hasPhone
  }

  /** One insert attempt and whether the store took it. */
  datatype Attempt = Attempt(lead: Lead, accepted: bool)

  /** The attempted leads, in order. */
  function Leads(log: seq<Attempt>): (ls: seq<Lead>)
    ensures |ls| == |log|
  {
    if log == [] then [] else Leads(log[..|log| - 1]) + [log[|log| - 1].lead]
  }

  /** The leads the store accepted, in order. */
  function Accepted(log: seq<Attempt>): (ls: seq<Lead>)
    ensures |ls| <= |log|
  {
    if log == [] then []
    else Accepted(log[..|log| - 1]) + (if log[|log| - 1].accepted then [log[|log| - 1].lead] else [])
  }

  /** The phones of the accepted leads: `found_leads`. */
  function AcceptedPhones(log: seq<Attempt>): (ps: seq<string>)
    ensures |ps| <= |log|
  {
    if log == [] then []
    else AcceptedPhones(log[..|log| - 1]) + (if log[|log| - 1].accepted then [log[|log| - 1].lead.phone] else [])
  }

  /** One more attempt extends each view of the log by at most that attempt. */
  lemma AttemptStep(log: seq<Attempt>, a: Attempt)
    ensures Leads(log + [a]) == Leads(log) + [a.lead]
    ensures Accepted(log + [a]) == Accepted(log) + (if a.accepted then [a.lead] else [])
    ensures AcceptedPhones(log + [a]) == AcceptedPhones(log) + (if a.accepted then [a.lead.phone] else [])
  {
    assert (log + [a])[..|log|] == log;
  }

  /** `found_leads` lists exactly the phones of the stored rows, one per row. */
  lemma {:induction false} AcceptedPhonesOfAccepted(log: seq<Attempt>)
    ensures |AcceptedPhones(log)| == |Accepted(log)|
    ensures forall i :: 0 <= i < |Accepted(log)| ==> AcceptedPhones(log)[i] == Accepted(log)[i].phone
  {
    if log != [] {
      AcceptedPhonesOfAccepted(log[..|log| - 1]);
    }
  }

  /** Every accepted lead was attempted. */
  lemma {:induction false} AcceptedWereAttempted(log: seq<Attempt>)
    ensures forall l :: l in Accepted(log) ==> l in Leads(log)
  {
    if log != [] {
      AcceptedWereAttempted(log[..|log| - 1]);
    }
  }

  lemma {:induction false} AcceptedAppend(a: seq<Attempt>, b: seq<Attempt>)
    ensures Accepted(a + b) == Accepted(a) + Accepted(b)
    decreases |b|
  {
    if b == [] {
      assert a + b == a;
    } else {
      var b' := b[..|b| - 1];
      assert (a + b)[..|a + b| - 1] == a + b';
      AcceptedAppend(a, b');
    }
  }

  /** The leads table. `log` records every insert attempt; the rows are the accepted ones. */
  class LeadStore {
    var rows: seq<Lead>
    ghost var log: seq<Attempt>

    ghost predicate Valid()
      reads this
    {
      rows == Accepted(log)
    }

    constructor ()
      ensures Valid() && rows == [] && log == []
    {
      rows := [];
      log := [];
    }

    /** `db.execute(table="leads", operation="insert", ...)`: it may raise, and then nothing is stored. */
    method Insert(lead: Lead) returns (ok: bool)
      requires Valid()
      modifies this
      ensures Valid()
      ensures log == old(log) + [Attempt(lead, ok)]
      ensures rows == if ok then old(rows) + [lead] else old(rows)
    {
      ok := *;
      AttemptStep(log, Attempt(lead, ok));
      log := log + [Attempt(lead, ok)];
      if ok {
        rows := rows + [lead];
      }
    }
  }

  /** `analysis["phones"][:2]`: up to `n` distinct elements of `s`, in an order the source leaves open. */
  method TakeUpTo(s: set<string>, n: nat) returns (r: seq<string>)
    ensures |r| == Min(n, |s|)
    ensures forall x :: x in r ==> x in s
    ensures forall i, j :: 0 <= i < j < |r| ==> r[i] != r[j]
  {
    r := [];
    var rest := s;
    while |r| < n && rest != {}
      invariant rest <= s && |r| + |rest| == |s| && |r| <= n
      invariant forall x :: x in r ==> x in s && x !in rest
      invariant forall i, j :: 0 <= i < j < |r| ==> r[i] != r[j]
      decreases |rest|
    {
      var x :| x in rest;
      r := r + [x];
      rest := rest - {x};
    }
  }

  /** One lead for each of `min(2, |phones|)` distinct phones of the set, built from the item. */
  predicate PicksFrom(query: string, userId: string, item: Item, phones: set<string>, tried: seq<Lead>)
  {
    && |tried| == Min(2, |phones|)
    && (forall i, j :: 0 <= i < j < |tried| ==> tried[i].phone != tried[j].phone)
    && (forall l :: l in tried ==> l.phone in phones && l == MakeLead(query, userId, item, l.phone))
  }

  /** What an item with analysis `a` contributes: nothing unless it qualifies, else its picks. */
  predicate AttemptsFor(query: string, userId: string, item: Item, a: Analysis, tried: seq<Lead>)
  {
    if Qualifies(a) then PicksFrom(query, userId, item, a.phones, tried) else tried == []
  }

  function Flatten(ss: seq<seq<Lead>>): seq<Lead>
  {
    if ss == [] then [] else Flatten(ss[..|ss| - 1]) + ss[|ss| - 1]
  }

  /** The analysis of each item's content, in order. */
  function Analyses(items: seq<Item>): (analyses: seq<Analysis>)
    ensures |analyses| == |items|
  {
    if items == [] then [] else Analyses(items[..|items| - 1]) + [AnalyzeContent(Content(items[|items| - 1]))]
  }

  lemma {:induction false} AnalysesAt(items: seq<Item>, k: nat)
    requires k < |items|
    ensures Analyses(items)[k] == AnalyzeContent(Content(items[k]))
    decreases |items|
  {
    if k < |items| - 1 {
      var n := |items| - 1;
      AnalysesAt(items[..n], k);
      assert items[..n][k] == items[k];
    }
  }

  /** Item `k` of the result list contributed the attempts `perItem[k]`. */
  predicate HuntAttempts(query: string, userId: string, items: seq<Item>, perItem: seq<seq<Lead>>)
  {
    && |perItem| == |items|
    && forall k :: 0 <= k < |items| ==> AttemptsFor(query, userId, items[k], Analyses(items)[k], perItem[k])
  }

  /** At most two insert attempts per result item. */
  lemma {:induction false} AtMostTwoPerItem(query: string, userId: string, items: seq<Item>, perItem: seq<seq<Lead>>)
    requires HuntAttempts(query, userId, items, perItem)
    ensures |Flatten(perItem)| <= 2 * |items|
  {
    if items != [] {
      var n := |items| - 1;
      HuntAttemptsLast(query, userId, items, perItem);
      AtMostTwoPerItem(query, userId, items[..n], perItem[..n]);
      AttemptsAtMostTwo(query, userId, items[n], AnalyzeContent(Content(items[n])), perItem[n]);
    }
  }

  /** Splitting off the last item: the prefix is a hunt of its own, and the last item's attempts follow. */
  lemma HuntAttemptsLast(query: string, userId: string, items: seq<Item>, perItem: seq<seq<Lead>>)
    requires HuntAttempts(query, userId, items, perItem) && items != []
    ensures HuntAttempts(query, userId, items[..|items| - 1], perItem[..|items| - 1])
    ensures AttemptsFor(query, userId, items[|items| - 1], AnalyzeContent(Content(items[|items| - 1])), perItem[|items| - 1])
    ensures Flatten(perItem) == Flatten(perItem[..|items| - 1]) + perItem[|items| - 1]
  {
    var n := |items| - 1;
    assert HuntAttempts(query, userId, items[..n], perItem[..n]);
    assert AttemptsFor(query, userId, items[n], AnalyzeContent(Content(items[n])), perItem[n]);
  }

  lemma AttemptsAtMostTwo(query: string, userId: string, item: Item, a: Analysis, tried: seq<Lead>)
    requires AttemptsFor(query, userId, item, a, tried)
    ensures |tried| <= 2
  {
  }

  /**
   * Every attempted lead comes from a good item with a phone: its phone is one
   * of that item's numbers and its row is the one built from that item.
   */
  lemma {:induction false} AttemptsComeFromGoodItems(query: string, userId: string, items: seq<Item>, perItem: seq<seq<Lead>>)
    requires HuntAttempts(query, userId, items, perItem)
    ensures forall l :: l in Flatten(perItem) ==>
              exists k :: 0 <= k < |items| && Qualifies(AnalyzeContent(Content(items[k])))
                          && l.phone in AnalyzeContent(Content(items[k])).phones
                          && l == MakeLead(query, userId, items[k], l.phone)
  {
    if items != [] {
      var n := |items| - 1;
      HuntAttemptsLast(query, userId, items, perItem);
      AttemptsComeFromGoodItems(query, userId, items[..n], perItem[..n]);
      forall l | l in Flatten(perItem)
        ensures exists k :: 0 <= k < |items| && Qualifies(AnalyzeContent(Content(items[k])))
                            && l.phone in AnalyzeContent(Content(items[k])).phones
                            && l == MakeLead(query, userId, items[k], l.phone)
      {
        if l in Flatten(perItem[..n]) {
          var k :| 0 <= k < n && Qualifies(AnalyzeContent(Content(items[..n][k])))
                   && l.phone in AnalyzeContent(Content(items[..n][k])).phones
                   && l == MakeLead(query, userId, items[..n][k], l.phone);
          assert items[..n][k] == items[k];
        } else {
          assert l in perItem[n];
        }
      }
    }
  }

  /** A good item carrying five distinct numbers still yields only two attempts. */
  lemma FivePhonesTwoAttempts(query: string, userId: string, item: Item, tried: seq<Lead>)
    requires Qualifies(AnalyzeContent(Content(item))) && |AnalyzeContent(Content(item)).phones| == 5
    requires AttemptsFor(query, userId, item, AnalyzeContent(Content(item)), tried)
    ensures |tried| == 2
  {
  }

  lemma {:induction false} LeadsAppend(a: seq<Attempt>, b: seq<Attempt>)
    ensures Leads(a + b) == Leads(a) + Leads(b)
    decreases |b|
  {
    if b == [] {
      assert a + b == a;
    } else {
      var b' := b[..|b| - 1];
      assert (a + b)[..|a + b| - 1] == a + b';
      LeadsAppend(a, b');
    }
  }

  lemma {:induction false} AcceptedPhonesAppend(a: seq<Attempt>, b: seq<Attempt>)
    ensures AcceptedPhones(a + b) == AcceptedPhones(a) + AcceptedPhones(b)
    decreases |b|
  {
    if b == [] {
      assert a + b == a;
    } else {
      var b' := b[..|b| - 1];
      assert (a + b)[..|a + b| - 1] == a + b';
      AcceptedPhonesAppend(a, b');
    }
  }

  /** The attempts so far are, in order, the leads built from the first picked phones. */
  ghost predicate BuiltFrom(query: string, userId: string, item: Item, picked: seq<string>, tried: seq<Attempt>)
  {
    |tried| <= |picked| && forall i :: 0 <= i < |tried| ==> Leads(tried)[i] == MakeLead(query, userId, item, picked[i])
  }

  lemma BuiltFromStep(query: string, userId: string, item: Item, picked: seq<string>, tried: seq<Attempt>, ok: bool)
    requires BuiltFrom(query, userId, item, picked, tried) && |tried| < |picked|
    ensures BuiltFrom(query, userId, item, picked, tried + [Attempt(MakeLead(query, userId, item, picked[|tried|]), ok)])
  {
    AttemptStep(tried, Attempt(MakeLead(query, userId, item, picked[|tried|]), ok));
  }

  /** The inner loop of `search`: one insert attempt per picked phone, in order. */
  method InsertEach(query: string, userId: string, item: Item, picked: seq<string>, store: LeadStore)
    returns (found: seq<string>, ghost tried: seq<Attempt>)
    requires store.Valid()
    modifies store
    ensures store.Valid()
    ensures store.log == old(store.log) + tried
    ensures |tried| == |picked| && forall i :: 0 <= i < |picked| ==> Leads(tried)[i] == MakeLead(query, userId, item, picked[i])
    ensures found == AcceptedPhones(tried)
  {
    found, tried := [], [];
    var j := 0;
    while j < |picked|
      invariant j <= |picked| && store.Valid()
      invariant store.log == old(store.log) + tried
      invariant |tried| == j && BuiltFrom(query, userId, item, picked, tried)
      invariant found == AcceptedPhones(tried)
    {
      var lead := MakeLead(query, userId, item, picked[j]);
      var ok := store.Insert(lead);
      AppendAssoc(old(store.log), tried, [Attempt(lead, ok)]);
      AttemptStep(tried, Attempt(lead, ok));
      BuiltFromStep(query, userId, item, picked, tried, ok);
      tried := tried + [Attempt(lead, ok)];
      if ok {
        found := found + [picked[j]];
      }
      j := j + 1;
    }
  }

  /** Leads built from distinct phones picked out of a set are picks from that set. */
  lemma PickedLeads(query: string, userId: string, item: Item, phones: set<string>, picked: seq<string>, ls: seq<Lead>)
    requires |picked| == Min(2, |phones|) && forall x :: x in picked ==> x in phones
    requires forall i, j :: 0 <= i < j < |picked| ==> picked[i] != picked[j]
    requires |ls| == |picked| && forall i :: 0 <= i < |picked| ==> ls[i] == MakeLead(query, userId, item, picked[i])
    ensures PicksFrom(query, userId, item, phones, ls)
  {
    forall l | l in ls ensures l.phone in phones && l == MakeLead(query, userId, item, l.phone) {
      var i :| 0 <= i < |ls| && ls[i] == l;
      assert picked[i] in picked;
    }
  }

  /**
   * The body of the loop over `results`: classify the item and, when it is
   * good and has a phone, try to store a lead for each of at most two of its
   * phones. `found` holds the phones whose insert did not raise.
   */
  method StoreItemLeads(query: string, userId: string, item: Item, store: LeadStore)
    returns (found: seq<string>, ghost tried: seq<Attempt>)
    requires store.Valid()
    modifies store
    ensures store.Valid()
    ensures store.log == old(store.log) + tried
    ensures AttemptsFor(query, userId, item, AnalyzeContent(Content(item)), Leads(tried))
    ensures found == AcceptedPhones(tried)
  {
    found, tried := [], [];
    var content := Content(item);
    var a := AnalyzeContent(content);
    if a.quality == Good && a.hasPhone {
      var picked := TakeUpTo(a.phones, 2);
      found, tried := InsertEach(query, userId, item, picked, store);
      PickedLeads(query, userId, item, a.phones, picked, Leads(tried));
    }
  }

  /** What one more item adds keeps the bookkeeping of the hunt loop. */
  lemma CollectStep(tries: seq<Attempt>, tried: seq<Attempt>, perItem: seq<seq<Lead>>, found: seq<string>, f: seq<string>)
    requires Leads(tries) == Flatten(perItem) && found == AcceptedPhones(tries) && f == AcceptedPhones(tried)
    ensures Leads(tries + tried) == Flatten(perItem + [Leads(tried)])
    ensures found + f == AcceptedPhones(tries + tried)
  {
    LeadsAppend(tries, tried);
    AcceptedPhonesAppend(tries, tried);
    assert (perItem + [Leads(tried)])[..|perItem|] == perItem;
  }

  lemma AttemptsStep(query: string, userId: string, items: seq<Item>, perItem: seq<seq<Lead>>, next: seq<Lead>)
    requires |perItem| < |items|
    requires forall j :: 0 <= j < |perItem| ==> AttemptsFor(query, userId, items[j], Analyses(items[..|perItem|])[j], perItem[j])
    requires AttemptsFor(query, userId, items[|perItem|], AnalyzeContent(Content(items[|perItem|])), next)
    ensures forall j :: 0 <= j < |perItem| + 1 ==>
              AttemptsFor(query, userId, items[j], Analyses(items[..|perItem| + 1])[j], (perItem + [next])[j])
  {
    var n := |perItem|;
    assert items[..n + 1][..n] == items[..n];
    assert Analyses(items[..n + 1]) == Analyses(items[..n]) + [AnalyzeContent(Content(items[n]))];
  }

  /** The loop over `results` in `search`. */
  method CollectLeads(query: string, userId: string, items: seq<Item>, store: LeadStore)
    returns (found: seq<string>, ghost perItem: seq<seq<Lead>>, ghost tries: seq<Attempt>)
    requires store.Valid()
    modifies store
    ensures store.Valid()
    ensures store.log == old(store.log) + tries
    ensures HuntAttempts(query, userId, items, perItem)
    ensures Leads(tries) == Flatten(perItem)
    ensures found == AcceptedPhones(tries)
  {
    found, perItem, tries := [], [], [];
    var k := 0;
    while k < |items|
      invariant k <= |items| && store.Valid()
      invariant store.log == old(store.log) + tries
      invariant |perItem| == k
      invariant forall j :: 0 <= j < k ==> AttemptsFor(query, userId, items[j], Analyses(items[..k])[j], perItem[j])
      invariant Leads(tries) == Flatten(perItem)
      invariant found == AcceptedPhones(tries)
    {
      var f;
      ghost var tried;
      f, tried := StoreItemLeads(query, userId, items[k], store);
      AppendAssoc(old(store.log), tries, tried);
      CollectStep(tries, tried, perItem, found, f);
      AttemptsStep(query, userId, items, perItem, Leads(tried));
      perItem := perItem + [Leads(tried)];
      tries := tries + tried;
      found := found + f;
      k := k + 1;
    }
    assert items[..k] == items;
  }

  // ---------------------------------------------------------------------
  // The search request and its outcome
  // ---------------------------------------------------------------------

  /** The JSON payload and the key header of the search request. */
  datatype SearchRequest = SearchRequest(q: string, num: int, gl: string, hl: string, tbs: string, apiKey: string)

  const MAX_PAGE: int := 50

  /** The request `search` sends: the query and the city each quoted, at most 50 results, Egypt, Arabic, past week. */
  function BuildRequest(query: string, city: string, apiKey: string, maxResults: int): (r: SearchRequest)
    ensures r.num <= MAX_PAGE && r.num <= maxResults && (r.num == MAX_PAGE || r.num == maxResults)
    ensures r.apiKey == apiKey && r.gl == "eg" && r.hl == "ar" && r.tbs == "qdr:w"
    ensures r.q == "\"" + query + "\" \"" + city + "\""
  {
    SearchRequest("\"" + query + "\" \"" + city + "\"",
                  if maxResults <= MAX_PAGE then maxResults else MAX_PAGE,
                  "eg", "ar", "qdr:w", apiKey)
  }

  /** The decoded body of a reply: an object whose `organic` field may be missing, or something that does not decode. */
  datatype ResponseBody = Json(organic: Option<seq<Item>>) | NotJson(error: string)

  /** What the HTTP request produced. */
  datatype ProviderOutcome = Replied(status: int, body: ResponseBody) | TimedOut | Raised(message: string)

  datatype HuntError = NoKeys | InvalidKey | QuotaExceeded | ApiError(status: int) | Timeout | SearchFailed(message: string)

  datatype HuntResult =
    | HuntOk(query: string, city: string, totalResults: nat, foundLeads: nat, leads: seq<string>)
    | HuntFailed(error: HuntError)

  /** `data.get("organic", [])`. */
  function ItemsOf(organic: Option<seq<Item>>): (items: seq<Item>)
    ensures organic.None? ==> items == []
    ensures organic.Some? ==> items == organic.value
  {
    if organic.Some? then organic.value else []
  }

  /**
   * A simple time source that only moves forward; `Sleep(d)` lets at least
   * `d` ticks pass. `sleeps` records the length of every sleep, in order.
   */
  class Clock {
    var now: int
    ghost var sleeps: seq<nat>

    constructor (start: int)
      ensures now == start && sleeps == []
    {
      now := start;
      sleeps := [];
    }

    /** `time.time()`: some time may have passed since the last reading. */
    method Read() returns (t: int)
      modifies this
      ensures old(now) <= now && t == now
      ensures sleeps == old(sleeps)
    {
      var later: int := *;
      if later < now {
        later := now;
      }
      now := later;
      t := now;
    }

    /** `time.sleep(d)`. */
    method Sleep(d: nat)
      modifies this
      ensures old(now) + d <= now
      ensures sleeps == old(sleeps) + [d]
    {
      var later: int := *;
      if later < now + d {
        later := now + d;
      }
      now := later;
      sleeps := sleeps + [d];
    }
  }

  // ---------------------------------------------------------------------
  // The hunter
  // ---------------------------------------------------------------------

  class Hunter {
    /** `config.SERPER_KEYS`, `config.REQUEST_DELAY` (in ticks) and `config.MAX_RESULTS`. */
    const keys: seq<string>
    const requestDelay: nat
    const maxResults: int
    const clock: Clock

    var currentKeyIndex: nat
    /** Never updated after construction. */
    var requestCount: nat
    var lastRequest: int

    /** Every key handed out so far, in order. */
    ghost var issued: seq<string>
    /** The construction time, then the moment of every request granted by `SafeDelay`. */
    ghost var grants: seq<int>

    ghost predicate Valid()
      reads this, clock
    {
      && (keys == [] ==> currentKeyIndex == 0 && issued == [])
      && (keys != [] ==> currentKeyIndex == |issued| % |keys|)
      && RoundRobin(keys, issued)
      && grants != [] && grants[|grants| - 1] == lastRequest
      && Spaced(grants, requestDelay)
      && lastRequest <= clock.now
    }

    constructor (keys: seq<string>, requestDelay: nat, maxResults: int, clock: Clock)
      ensures Valid()
      ensures this.keys == keys && this.requestDelay == requestDelay && this.maxResults == maxResults
      ensures this.clock == clock && clock.now == old(clock.now)
      ensures currentKeyIndex == 0 && requestCount == 0 && lastRequest == clock.now
      ensures issued == [] && grants == [clock.now]
    {
      this.keys := keys;
      this.requestDelay := requestDelay;
      this.maxResults := maxResults;
      this.clock := clock;
      currentKeyIndex := 0;
      requestCount := 0;
      lastRequest := clock.now;
      issued := [];
      grants := [clock.now];
    }

    /** `get_next_key`: the key under the cursor, moving the cursor on by one, round the pool. */
    method GetNextKey() returns (key: Option<string>)
      requires Valid()
      modifies this
      ensures Valid()
      ensures keys == [] ==> key == None && currentKeyIndex == old(currentKeyIndex) && issued == old(issued)
      ensures keys != [] ==> && old(currentKeyIndex) < |keys|
                             && key == Some(keys[old(currentKeyIndex)])
                             && currentKeyIndex == (old(currentKeyIndex) + 1) % |keys|
                             && issued == old(issued) + [key.value]
      ensures keys != [] ==> currentKeyIndex < |keys|
      ensures lastRequest == old(lastRequest) && grants == old(grants) && requestCount == old(requestCount)
    {
      if keys == [] {
        return None;
      }
      var k := keys[currentKeyIndex];
      RoundRobinStep(keys, issued);
      currentKeyIndex := (currentKeyIndex + 1) % |keys|;
      issued := issued + [k];
      key := Some(k);
    }

    /**
     * `safe_delay`: reads the clock at `t0` and, when less than the delay has
     * passed since the last request, sleeps `REQUEST_DELAY - elapsed` (the
     * only sleep it makes); then stamps the current time.
     */
    method SafeDelay() returns (ghost t0: int, ghost elapsed: int)
      requires Valid()
      modifies this, clock
      ensures Valid()
      ensures old(clock.now) <= t0 <= clock.now && elapsed == t0 - old(lastRequest)
      ensures clock.sleeps == old(clock.sleeps) + (if elapsed < requestDelay then [requestDelay - elapsed] else [])
      ensures lastRequest == clock.now && old(lastRequest) + requestDelay <= lastRequest
      ensures grants == old(grants) + [lastRequest]
      ensures currentKeyIndex == old(currentKeyIndex) && issued == old(issued) && requestCount == old(requestCount)
    {
      var start := clock.Read();
      var e := start - lastRequest;
      t0, elapsed := start, e;
      if e < requestDelay {
        clock.Sleep(requestDelay - e);
      }
      var t1 := clock.Read();
      lastRequest := t1;
      grants := grants + [t1];
    }

    /**
     * `search`: no keys, or an empty key, fail before any request; otherwise
     * the request is paced and sent, and its outcome is mapped to a failure
     * or, for a decoded 200 reply, to the leads stored from its items.
     */
    method Search(query: string, city: string, userId: string, store: LeadStore,
                  provider: SearchRequest -> ProviderOutcome)
      returns (r: HuntResult, ghost perItem: seq<seq<Lead>>, ghost tries: seq<Attempt>)
      requires Valid() && store.Valid()
      modifies this, clock, store
      ensures Valid() && store.Valid()
      ensures store.log == old(store.log) + tries
      ensures keys == [] ==> r == HuntFailed(NoKeys) && issued == old(issued) && grants == old(grants) && tries == []
                             && clock.sleeps == old(clock.sleeps)
      ensures keys != [] ==> old(currentKeyIndex) < |keys| && issued == old(issued) + [keys[old(currentKeyIndex)]]
      ensures keys != [] && keys[old(currentKeyIndex)] == "" ==>
                r == HuntFailed(InvalidKey) && grants == old(grants) && tries == [] && clock.sleeps == old(clock.sleeps)
      ensures keys != [] && keys[old(currentKeyIndex)] != "" ==>
                |grants| == |old(grants)| + 1 && grants[..|old(grants)|] == old(grants)
                && old(lastRequest) + requestDelay <= lastRequest
                && |old(clock.sleeps)| <= |clock.sleeps| <= |old(clock.sleeps)| + 1
                && clock.sleeps[..|old(clock.sleeps)|] == old(clock.sleeps)
                && (|clock.sleeps| > |old(clock.sleeps)| ==>
                      0 < clock.sleeps[|old(clock.sleeps)|] <= old(lastRequest) + requestDelay - old(clock.now))
                && (old(lastRequest) + requestDelay <= old(clock.now) ==> clock.sleeps == old(clock.sleeps))
      ensures keys != [] && keys[old(currentKeyIndex)] != "" ==>
                var o := provider(BuildRequest(query, city, keys[old(currentKeyIndex)], maxResults));
                && (o.TimedOut? ==> r == HuntFailed(Timeout) && tries == [])
                && (o.Raised? ==> r == HuntFailed(SearchFailed(o.message)) && tries == [])
                && (o.Replied? && o.status == 429 ==> r == HuntFailed(QuotaExceeded) && tries == [])
                && (o.Replied? && o.status != 429 && o.status != 200 ==> r == HuntFailed(ApiError(o.status)) && tries == [])
                && (o.Replied? && o.status == 200 && o.body.NotJson? ==> r == HuntFailed(SearchFailed(o.body.error)) && tries == [])
                && (o.Replied? && o.status == 200 && o.body.Json? ==>
                      var items := ItemsOf(o.body.organic);
                      && HuntAttempts(query, userId, items, perItem)
                      && Leads(tries) == Flatten(perItem)
                      && r == HuntOk(query, city, |items|, |AcceptedPhones(tries)|, Take(AcceptedPhones(tries), 10)))
      ensures r.HuntOk? <==> keys != [] && keys[old(currentKeyIndex)] != ""
                             && var o := provider(BuildRequest(query, city, keys[old(currentKeyIndex)], maxResults));
                                o.Replied? && o.status == 200 && o.body.Json?
    {
      perItem, tries := [], [];
      if keys == [] {
        return HuntFailed(NoKeys), perItem, tries;
      }
      var apiKey := GetNextKey();
      if apiKey.value == "" {
        return HuntFailed(InvalidKey), perItem, tries;
      }
      ghost var g0, s0 := grants, clock.sleeps;
      var _, _ := SafeDelay();
      assert grants[..|g0|] == g0 && clock.sleeps[..|s0|] == s0;
      var request := BuildRequest(query, city, apiKey.value, maxResults);
      var outcome := provider(request);
      match outcome {
        case TimedOut =>
          r := HuntFailed(Timeout);
        case Raised(message) =>
          r := HuntFailed(SearchFailed(message));
        case Replied(status, body) =>
          if status == 429 {
            r := HuntFailed(QuotaExceeded);
          } else if status != 200 {
            r := HuntFailed(ApiError(status));
          } else {
            match body {
              case NotJson(error) =>
                r := HuntFailed(SearchFailed(error));
              case Json(organic) =>
                var items := ItemsOf(organic);
                var found;
                found, perItem, tries := CollectLeads(query, userId, items, store);
                r := HuntOk(query, city, |items|, |found|, Take(found, 10));
            }
          }
      }
    }
  }
}
