/** The pure part of the fraud-screening engine: what each rule checks, the fixed order in which
    the rules run, and the classification that the first firing rule determines. */
module Rules {
  import opened Wrappers
  import opened FraudReasons
  import opened Transactions

  /** The terms whose presence in a description or a PIX key makes a transfer suspicious. */
  const DangerousTerms: seq<string> := ["golpe", "fraude", "fake", "urgente"]

  const MaxValue: real := 10000.0
  const MinValue: real := 0.5
  /** The high-frequency window, in whole minutes. */
  const FrequencyWindow: int := 5
  /** How many recent transfers make the receiver's traffic too frequent. */
  const FrequencyThreshold: nat := 5
  /** The fewest history entries for which the deviation-from-average rule applies. */
  const AverageMinHistory: nat := 5
  const ToleranceFactor: real := 4.0

  // ---------------------------------------------------------------- text

  /** Lower-cases an ASCII letter and leaves every other character alone. */
  function LowerChar(c: char): char
  {
    if 'A' <= c <= 'Z' then (c as int + 32) as char else c
  }

  /** Lower-cases a string character by character. */
  function Lower(s: string): (r: string)
    ensures |r| == |s|
    ensures forall i :: 0 <= i < |s| ==> r[i] == LowerChar(s[i])
  {
    seq(|s|, i requires 0 <= i < |s| => LowerChar(s[i]))
  }

  /** Lower-casing commutes with taking a slice. */
  lemma LowerSlice(s: string, i: nat, j: nat)
    requires i <= j <= |s|
    ensures Lower(s)[i..j] == Lower(s[i..j])
  {
  }

  /** Lower-casing twice is lower-casing once. */
  lemma LowerIdempotent(s: string)
    ensures Lower(Lower(s)) == Lower(s)
  {
  }

  /** `t` occurs in `s` starting at position `i`. */
  ghost predicate OccursAt(s: string, t: string, i: int)
  {
    0 <= i && i + |t| <= |s| && s[i..i + |t|] == t
  }

  /** Substring search, as `String.contains`: tries every start position from the left. */
  function Contains(s: string, t: string): bool
    decreases |s|
  {
    if |t| > |s| then false
    else if s[..|t|] == t then true
    else Contains(s[1..], t)
  }

  /** The search finds `t` exactly when `t` occurs somewhere in `s`. */
  lemma {:induction false} ContainsIffOccurs(s: string, t: string)
    ensures Contains(s, t) <==> exists i :: OccursAt(s, t, i)
  {
    if |t| > |s| {
    } else if s[..|t|] == t {
      assert OccursAt(s, t, 0);
    } else {
      ContainsIffOccurs(s[1..], t);
      if exists i :: OccursAt(s[1..], t, i) {
        var i :| OccursAt(s[1..], t, i);
        assert s[1..][i..i + |t|] == s[i + 1..i + 1 + |t|];
        assert OccursAt(s, t, i + 1);
      }
      if exists i :: OccursAt(s, t, i) {
        var i :| OccursAt(s, t, i);
        assert i != 0;
        assert s[1..][i - 1..i - 1 + |t|] == s[i..i + |t|];
        assert OccursAt(s[1..], t, i - 1);
      }
    }
  }

  /** A string that lacks the first character of a non-empty `t` does not contain `t`. */
  lemma {:induction false} MissingFirstChar(s: string, t: string)
    requires |t| > 0 && t[0] !in s
    ensures !Contains(s, t)
  {
    if |t| <= |s| {
      assert s[..|t|][0] == s[0];
      MissingFirstChar(s[1..], t);
    }
  }

  /** The text contains one of the dangerous terms. */
  predicate HasDangerousTerm(text: string)
  {
    exists k :: 0 <= k < |DangerousTerms| && Contains(text, DangerousTerms[k])
  }

  /** The description rule's check, on the lower-cased description. */
  predicate DangerousDescription(description: string)
  {
    HasDangerousTerm(Lower(description))
  }

  /** A null key is checked as the empty string. */
  function KeyText(key: Option<string>): (s: string)
    ensures key.None? ==> s == ""
    ensures key.Some? ==> s == key.value
  {
    if key.Some? then key.value else ""
  }

  /** The key rule's check, on both lower-cased keys. */
  predicate DangerousKeys(senderKey: Option<string>, receiverKey: Option<string>)
  {
    HasDangerousTerm(Lower(KeyText(senderKey))) || HasDangerousTerm(Lower(KeyText(receiverKey)))
  }

  /** Matching ignores case: any spelling of a dangerous term, in any letter case, flags the text. */
  lemma DangerousInAnyCase(text: string, u: string, k: nat)
    requires k < |DangerousTerms| && Lower(u) == DangerousTerms[k]
    requires Contains(text, u)
    ensures HasDangerousTerm(Lower(text))
  {
    ContainsIffOccurs(text, u);
    var i :| OccursAt(text, u, i);
    LowerSlice(text, i, i + |u|);
    assert OccursAt(Lower(text), DangerousTerms[k], i);
    ContainsIffOccurs(Lower(text), DangerousTerms[k]);
  }

  /** An absent key is the empty string, which holds no dangerous term. */
  lemma NullKeysAreHarmless()
    ensures !DangerousKeys(None, None)
  {
    forall k | 0 <= k < |DangerousTerms|
      ensures !Contains(Lower(""), DangerousTerms[k])
    {
      MissingFirstChar(Lower(""), DangerousTerms[k]);
    }
  }

  // ---------------------------------------------------------------- value

  /** The value rule's check: outside [0.5, 10000.0], both ends allowed. */
  predicate StrangeValueAmount(value: real)
  {
    value > MaxValue || value < MinValue
  }

  // ---------------------------------------------------------------- frequency

  /** `Duration.between(from, to).toMinutes()`: whole minutes, truncated toward zero. */
  function MinutesBetween(from: int, to: int): (m: int)
    ensures to - from >= 0 ==> 60 * m <= to - from < 60 * m + 60
    ensures to - from < 0 ==> -60 < to - from - 60 * m <= 0
  {
    var d := to - from;
    if d >= 0 then d / 60 else -((-d) / 60)
  }

  /** A history entry counts as recent when it has a creation date at most five whole minutes ago. */
  predicate IsRecent(t: Transaction, now: int)
  {
    t.createdDate.Some? && MinutesBetween(t.createdDate.value, now) <= FrequencyWindow
  }

  /** Truncation makes the window six minutes wide to the second: ages up to 359 seconds count,
      and so does every creation date in the future. */
  lemma RecentIffUnder360Seconds(t: Transaction, now: int)
    ensures IsRecent(t, now) <==> t.createdDate.Some? && now - t.createdDate.value < 360
  {
  }

  /** How many entries of the history are recent. */
  function RecentCount(history: seq<Transaction>, now: int): (n: nat)
    ensures n <= |history|
  {
    if history == [] then 0
    else (if IsRecent(history[0], now) then 1 else 0) + RecentCount(history[1..], now)
  }

  /** When every entry is recent, every entry is counted. */
  lemma {:induction false} AllRecentCounted(history: seq<Transaction>, now: int)
    requires forall i :: 0 <= i < |history| ==> IsRecent(history[i], now)
    ensures RecentCount(history, now) == |history|
  {
    if history != [] {
      AllRecentCounted(history[1..], now);
    }
  }

  /** When no entry is recent, the count is zero. */
  lemma {:induction false} NoneRecentCounted(history: seq<Transaction>, now: int)
    requires forall i :: 0 <= i < |history| ==> !IsRecent(history[i], now)
    ensures RecentCount(history, now) == 0
  {
    if history != [] {
      NoneRecentCounted(history[1..], now);
    }
  }

  /** The count of a concatenation is the sum of the counts of its parts. */
  lemma {:induction false} RecentCountAppend(a: seq<Transaction>, b: seq<Transaction>, now: int)
    ensures RecentCount(a + b, now) == RecentCount(a, now) + RecentCount(b, now)
  {
    if a != [] {
      assert (a + b)[0] == a[0];
      assert (a + b)[1..] == a[1..] + b;
      RecentCountAppend(a[1..], b, now);
    } else {
      assert a + b == b;
    }
  }

  /** The high-frequency rule's check. */
  predicate TooFrequent(history: seq<Transaction>, now: int)
  {
    RecentCount(history, now) >= FrequencyThreshold
  }

  // ---------------------------------------------------------------- average

  function Sum(history: seq<Transaction>): real
  {
    if history == [] then 0.0 else history[0].value + Sum(history[1..])
  }

  /** The arithmetic mean of the amounts of every entry of the history. */
  function Mean(history: seq<Transaction>): real
    requires |history| > 0
  {
    Sum(history) / (|history| as real)
  }

  /** A history whose amounts are all `x` has sum |history| * x. */
  lemma {:induction false} SumOfUniform(history: seq<Transaction>, x: real)
    requires forall i :: 0 <= i < |history| ==> history[i].value == x
    ensures Sum(history) == (|history| as real) * x
  {
    if history != [] {
      SumOfUniform(history[1..], x);
    }
  }

  /** A history whose amounts are all `x` has mean `x`. */
  lemma MeanOfUniform(history: seq<Transaction>, x: real)
    requires |history| > 0
    requires forall i :: 0 <= i < |history| ==> history[i].value == x
    ensures Mean(history) == x
  {
    SumOfUniform(history, x);
  }

  /** The deviation rule's check: only with at least five entries, and then strictly beyond four
      times the mean or strictly below a quarter of it. */
  predicate OutOfAverage(value: real, history: seq<Transaction>)
  {
    |history| >= AverageMinHistory &&
    (value > Mean(history) * ToleranceFactor || value < Mean(history) / ToleranceFactor)
  }

  /** Both bounds of the deviation rule are allowed values: with five entries averaging 100,
      400 and 25 pass, 401 and 24 fail. */
  lemma AverageBounds(history: seq<Transaction>)
    requires |history| == 5 && Sum(history) == 500.0
    ensures !OutOfAverage(400.0, history) && !OutOfAverage(25.0, history)
    ensures OutOfAverage(401.0, history) && OutOfAverage(24.0, history)
  {
  }

  // ---------------------------------------------------------------- the chain

  /** Everything the rules look at, once sender and receiver are resolved. */
  datatype Facts = Facts(
    senderListed: bool,
    receiverListed: bool,
    value: real,
    history: seq<Transaction>,
    now: int,
    description: string,
    senderKey: Option<string>,
    receiverKey: Option<string>)

  /** The six rules, each with its check, the status and reason it sets, and whether it lists the
      receiver in the blacklist. */
  datatype Rule =
    | UserBlacklistRule
    | TransactionValueRule
    | HighFrequencyRule
    | OutOfAverageRule
    | DangerousDescriptionRule
    | DangerousKeysRule
  {
    predicate Fires(f: Facts)
    {
      match this
      case UserBlacklistRule => f.senderListed || f.receiverListed
      case TransactionValueRule => StrangeValueAmount(f.value)
      case HighFrequencyRule => TooFrequent(f.history, f.now)
      case OutOfAverageRule => OutOfAverage(f.value, f.history)
      case DangerousDescriptionRule => DangerousDescription(f.description)
      case DangerousKeysRule => DangerousKeys(f.senderKey, f.receiverKey)
    }

    function Verdict(): Status
    {
      match this
      case DangerousDescriptionRule => PendingReview
      case DangerousKeysRule => PendingReview
      case _ => Failed
    }

    function Reason(): FraudReason
    {
      match this
      case UserBlacklistRule => UserInBlacklist
      case TransactionValueRule => StrangeValue
      case HighFrequencyRule => HighFrequency
      case OutOfAverageRule => OutOfAverageValue
      case DangerousDescriptionRule => SuspiciousDescription
      case DangerousKeysRule => SuspiciousPixKey
    }

    predicate PenalizesReceiver()
    {
      this == TransactionValueRule || this == HighFrequencyRule
    }
  }

  /** The fixed evaluation order. */
  const RuleOrder: seq<Rule> :=
    [UserBlacklistRule, TransactionValueRule, HighFrequencyRule, OutOfAverageRule,
     DangerousDescriptionRule, DangerousKeysRule]

  /** The first rule of `rules` that fires, if any. */
  function FirstFiring(rules: seq<Rule>, f: Facts): (r: Option<Rule>)
    ensures r.Some? ==> r.value in rules && r.value.Fires(f)
  {
    if rules == [] then None
    else if rules[0].Fires(f) then Some(rules[0])
    else FirstFiring(rules[1..], f)
  }

  /** `FirstFiring` returns the rule at index `i` exactly when that rule fires and no earlier one
      does (for a list without repeated rules). */
  lemma {:induction false} FirstFiringIsLeast(rules: seq<Rule>, f: Facts, i: nat)
    requires i < |rules|
    requires forall a, b :: 0 <= a < b < |rules| ==> rules[a] != rules[b]
    ensures FirstFiring(rules, f) == Some(rules[i]) <==>
            rules[i].Fires(f) && forall j :: 0 <= j < i ==> !rules[j].Fires(f)
  {
    if i > 0 {
      assert rules[0] != rules[i];
      if rules[0].Fires(f) {
        assert FirstFiring(rules, f) == Some(rules[0]);
      } else {
        var rest := rules[1..];
        assert FirstFiring(rules, f) == FirstFiring(rest, f);
        forall a, b | 0 <= a < b < |rest| ensures rest[a] != rest[b] {
          assert rest[a] == rules[a + 1] && rest[b] == rules[b + 1];
        }
        FirstFiringIsLeast(rest, f, i - 1);
        assert rest[i - 1] == rules[i];
        if forall j :: 0 <= j < i - 1 ==> !rest[j].Fires(f) {
          forall j | 0 <= j < i ensures !rules[j].Fires(f) {
            if j > 0 { assert rules[j] == rest[j - 1]; }
          }
        }
        if forall j :: 0 <= j < i ==> !rules[j].Fires(f) {
          forall j | 0 <= j < i - 1 ensures !rest[j].Fires(f) {
            assert rest[j] == rules[j + 1];
          }
        }
      }
    }
  }

  /** `FirstFiring` returns nothing exactly when no rule of the list fires. */
  lemma {:induction false} FirstFiringNone(rules: seq<Rule>, f: Facts)
    ensures FirstFiring(rules, f).None? <==> forall j :: 0 <= j < |rules| ==> !rules[j].Fires(f)
  {
    if rules != [] && !rules[0].Fires(f) {
      FirstFiringNone(rules[1..], f);
    }
  }

  /** What a classification pass decides. */
  datatype Classification = Classification(status: Status, reason: Option<FraudReason>, penalizeReceiver: bool)

  /** The classification the first firing rule determines; SUCCESS with no reason when none fires. */
  function Classify(f: Facts): (c: Classification)
    ensures c.reason.None? <==> forall j :: 0 <= j < |RuleOrder| ==> !RuleOrder[j].Fires(f)
    ensures c.reason.Some? ==>
              exists j :: 0 <= j < |RuleOrder| && RuleOrder[j].Fires(f) &&
                c == Classification(RuleOrder[j].Verdict(), Some(RuleOrder[j].Reason()), RuleOrder[j].PenalizesReceiver())
  {
    FirstFiringNone(RuleOrder, f);
    match FirstFiring(RuleOrder, f)
    case None => Classification(Success, None, false)
    case Some(r) => Classification(r.Verdict(), Some(r.Reason()), r.PenalizesReceiver())
  }

  /** The six rules of the order are all different, and so are the reasons they set. */
  lemma RuleOrderDistinct()
    ensures |RuleOrder| == 6
    ensures forall a, b :: 0 <= a < b < |RuleOrder| ==> RuleOrder[a] != RuleOrder[b]
    ensures forall a, b :: 0 <= a < b < |RuleOrder| ==> RuleOrder[a].Reason() != RuleOrder[b].Reason()
  {
  }

  /** Short-circuit: the pass reports the reason of the rule at position `i` of the order exactly
      when that rule fires and no earlier rule does; the status and the blacklist penalty are then
      that rule's. */
  lemma ClassifyIsFirstFiring(f: Facts, i: nat)
    requires i < |RuleOrder|
    ensures Classify(f).reason == Some(RuleOrder[i].Reason()) <==>
            RuleOrder[i].Fires(f) && forall j :: 0 <= j < i ==> !RuleOrder[j].Fires(f)
    ensures Classify(f).reason == Some(RuleOrder[i].Reason()) ==>
            Classify(f) == Classification(RuleOrder[i].Verdict(), Some(RuleOrder[i].Reason()), RuleOrder[i].PenalizesReceiver())
  {
    RuleOrderDistinct();
    FirstFiringIsLeast(RuleOrder, f, i);
    match FirstFiring(RuleOrder, f)
    case None =>
    case Some(r) =>
      var k :| 0 <= k < |RuleOrder| && RuleOrder[k] == r;
      FirstFiringIsLeast(RuleOrder, f, k);
  }

  /** The pass reports SUCCESS, with no reason and no penalty, exactly when no rule fires. */
  lemma NoRuleFires(f: Facts)
    ensures Classify(f) == Classification(Success, None, false) <==>
            forall j :: 0 <= j < |RuleOrder| ==> !RuleOrder[j].Fires(f)
  {
    FirstFiringNone(RuleOrder, f);
  }

  /** `FirstFiring` over a list of six rules, unfolded into six guarded steps. */
  lemma FirstFiringOfSix(rules: seq<Rule>, f: Facts)
    requires |rules| == 6
    ensures FirstFiring(rules, f) ==
      if rules[0].Fires(f) then Some(rules[0])
      else if rules[1].Fires(f) then Some(rules[1])
      else if rules[2].Fires(f) then Some(rules[2])
      else if rules[3].Fires(f) then Some(rules[3])
      else if rules[4].Fires(f) then Some(rules[4])
      else if rules[5].Fires(f) then Some(rules[5])
      else None
  {
    var r1 := rules[1..];
    var r2 := r1[1..];
    var r3 := r2[1..];
    var r4 := r3[1..];
    var r5 := r4[1..];
    assert r5[1..] == [];
    assert FirstFiring(r5, f) == if rules[5].Fires(f) then Some(rules[5]) else None;
    assert FirstFiring(r4, f) == if rules[4].Fires(f) then Some(rules[4]) else FirstFiring(r5, f);
    assert FirstFiring(r3, f) == if rules[3].Fires(f) then Some(rules[3]) else FirstFiring(r4, f);
    assert FirstFiring(r2, f) == if rules[2].Fires(f) then Some(rules[2]) else FirstFiring(r3, f);
    assert FirstFiring(r1, f) == if rules[1].Fires(f) then Some(rules[1]) else FirstFiring(r2, f);
  }

  /** The table-driven pass is the chain of guarded steps of the engine, in its order. */
  lemma ClassifyChain(f: Facts)
    ensures Classify(f) ==
      if UserBlacklistRule.Fires(f) then Classification(Failed, Some(UserInBlacklist), false)
      else if TransactionValueRule.Fires(f) then Classification(Failed, Some(StrangeValue), true)
      else if HighFrequencyRule.Fires(f) then Classification(Failed, Some(HighFrequency), true)
      else if OutOfAverageRule.Fires(f) then Classification(Failed, Some(OutOfAverageValue), false)
      else if DangerousDescriptionRule.Fires(f) then Classification(PendingReview, Some(SuspiciousDescription), false)
      else if DangerousKeysRule.Fires(f) then Classification(PendingReview, Some(SuspiciousPixKey), false)
      else Classification(Success, None, false)
  {
    FirstFiringOfSix(RuleOrder, f);
  }

  /** Rule 1: a blacklisted sender or receiver fails the transfer as USER_IN_BLACKLIST, whatever
      else holds of it (even a value out of bounds), and lists no one. */
  lemma BlacklistRuleOutcome(f: Facts)
    ensures Classify(f) == Classification(Failed, Some(UserInBlacklist), false) <==>
            f.senderListed || f.receiverListed
  {
    ClassifyChain(f);
  }

  /** Rule 2: with neither party blacklisted, a value outside [0.5, 10000.0] fails the transfer as
      STRANGE_VALUE and lists the receiver. */
  lemma ValueRuleOutcome(f: Facts)
    ensures Classify(f) == Classification(Failed, Some(StrangeValue), true) <==>
            !f.senderListed && !f.receiverListed && StrangeValueAmount(f.value)
  {
    ClassifyChain(f);
  }

  /** Rule 3: when the earlier rules pass, five or more recent transfers to the receiver fail the
      transfer as HIGH_FREQUENCY and list the receiver. */
  lemma FrequencyRuleOutcome(f: Facts)
    ensures Classify(f) == Classification(Failed, Some(HighFrequency), true) <==>
            !f.senderListed && !f.receiverListed && !StrangeValueAmount(f.value) &&
            RecentCount(f.history, f.now) >= 5
  {
    ClassifyChain(f);
  }

  /** Rule 4: when the earlier rules pass, a history of at least five entries whose mean the value
      strictly exceeds fourfold, or strictly undercuts by a factor four, fails the transfer as
      OUT_OF_AVERAGE_VALUE; no one is listed. */
  lemma AverageRuleOutcome(f: Facts)
    ensures Classify(f) == Classification(Failed, Some(OutOfAverageValue), false) <==>
            !f.senderListed && !f.receiverListed && !StrangeValueAmount(f.value) &&
            !TooFrequent(f.history, f.now) &&
            |f.history| >= 5 &&
            (f.value > Mean(f.history) * 4.0 || f.value < Mean(f.history) / 4.0)
  {
    ClassifyChain(f);
  }

  /** Rule 5: when the earlier rules pass, a dangerous term in the lower-cased description sends
      the transfer to PENDING_REVIEW as SUSPICIOUS_DESCRIPTION. */
  lemma DescriptionRuleOutcome(f: Facts)
    ensures Classify(f) == Classification(PendingReview, Some(SuspiciousDescription), false) <==>
            !f.senderListed && !f.receiverListed && !StrangeValueAmount(f.value) &&
            !TooFrequent(f.history, f.now) && !OutOfAverage(f.value, f.history) &&
            HasDangerousTerm(Lower(f.description))
  {
    ClassifyChain(f);
  }

  /** Rule 6: when the earlier rules pass, a dangerous term in either lower-cased key (a null key
      read as "") sends the transfer to PENDING_REVIEW as SUSPICIOUS_PIX_KEY. */
  lemma KeyRuleOutcome(f: Facts)
    ensures Classify(f) == Classification(PendingReview, Some(SuspiciousPixKey), false) <==>
            !f.senderListed && !f.receiverListed && !StrangeValueAmount(f.value) &&
            !TooFrequent(f.history, f.now) && !OutOfAverage(f.value, f.history) &&
            !DangerousDescription(f.description) &&
            (HasDangerousTerm(Lower(KeyText(f.senderKey))) || HasDangerousTerm(Lower(KeyText(f.receiverKey))))
  {
    ClassifyChain(f);
  }

  /** When no rule fires the transfer succeeds with no reason and no one is listed. */
  lemma SuccessOutcome(f: Facts)
    ensures Classify(f) == Classification(Success, None, false) <==>
            !f.senderListed && !f.receiverListed && !StrangeValueAmount(f.value) &&
            !TooFrequent(f.history, f.now) && !OutOfAverage(f.value, f.history) &&
            !DangerousDescription(f.description) && !DangerousKeys(f.senderKey, f.receiverKey)
  {
    ClassifyChain(f);
  }

  /** Every pass ends in a status; the reason is absent exactly on SUCCESS; FAILED goes with the
      four reasons of rules 1-4 and PENDING_REVIEW with the two of rules 5-6; the receiver is
      listed exactly for STRANGE_VALUE and HIGH_FREQUENCY. */
  lemma ClassificationShape(f: Facts)
    ensures var c := Classify(f);
      && (c.status == Success <==> c.reason.None?)
      && (c.status == Failed <==>
            c.reason in {Some(UserInBlacklist), Some(StrangeValue), Some(HighFrequency), Some(OutOfAverageValue)})
      && (c.status == PendingReview <==>
            c.reason in {Some(SuspiciousDescription), Some(SuspiciousPixKey)})
      && (c.penalizeReceiver <==> c.reason in {Some(StrangeValue), Some(HighFrequency)})
  {
    ClassifyChain(f);
  }

  /** Both ends of the value range are allowed: 10000.0 and 0.5 pass, 10000.01 and 0.49 do not. */
  lemma ValueBounds()
    ensures !StrangeValueAmount(10000.0) && !StrangeValueAmount(0.5)
    ensures StrangeValueAmount(10000.01) && StrangeValueAmount(0.49)
  {
  }

  /** Five transfers made one to five minutes ago are too frequent; the four most recent of them
      are not. */
  lemma FrequencyThresholdExample(history: seq<Transaction>, now: int)
    requires |history| == 5
    requires forall i :: 0 <= i < 5 ==> history[i].createdDate == Some(now - 60 * (i + 1))
    ensures TooFrequent(history, now)
    ensures !TooFrequent(history[..4], now)
  {
    AllRecentCounted(history, now);
  }

  /** Four transfers made one to four minutes ago, followed by any number of transfers that are
      undated or at least six minutes old, are counted as four and do not trigger the rule. */
  lemma MixedHistoryExample(recent: seq<Transaction>, older: seq<Transaction>, now: int)
    requires |recent| == 4
    requires forall i :: 0 <= i < 4 ==> recent[i].createdDate == Some(now - 60 * (i + 1))
    requires forall j :: 0 <= j < |older| ==>
               older[j].createdDate.None? || older[j].createdDate.value <= now - 360
    ensures RecentCount(recent + older, now) == 4
    ensures !TooFrequent(recent + older, now)
  {
    AllRecentCounted(recent, now);
    forall j | 0 <= j < |older| ensures !IsRecent(older[j], now) {
      RecentIffUnder360Seconds(older[j], now);
    }
    NoneRecentCounted(older, now);
    RecentCountAppend(recent, older, now);
  }

  /** A description in which some casing of a dangerous term occurs is dangerous. */
  lemma TermInDescription(description: string, u: string, k: nat, i: int)
    requires k < |DangerousTerms| && Lower(u) == DangerousTerms[k] && OccursAt(description, u, i)
    ensures DangerousDescription(description)
  {
    ContainsIffOccurs(description, u);
    DangerousInAnyCase(description, u, k);
  }

  /** A sender key in which some casing of a dangerous term occurs is dangerous, whatever the
      receiver's key. */
  lemma TermInSenderKey(senderKey: string, receiverKey: Option<string>, u: string, k: nat, i: int)
    requires k < |DangerousTerms| && Lower(u) == DangerousTerms[k] && OccursAt(senderKey, u, i)
    ensures DangerousKeys(Some(senderKey), receiverKey)
  {
    ContainsIffOccurs(senderKey, u);
    DangerousInAnyCase(senderKey, u, k);
  }

  /** "Pagamento URGENTE" is a suspicious description. */
  lemma UrgentDescriptionExample()
    ensures DangerousDescription("Pagamento URGENTE")
  {
    TermInDescription("Pagamento URGENTE", "URGENTE", 3, 10);
  }

  /** A sender key containing "fake" is suspicious, whatever the receiver's key. */
  lemma FakeSenderKeyExample(receiverKey: Option<string>)
    ensures DangerousKeys(Some("conta-fake-01"), receiverKey)
  {
    TermInSenderKey("conta-fake-01", receiverKey, "fake", 2, 6);
  }

  /** Lower-casing never produces a lower-case letter that the text has in neither case. */
  lemma LowerAvoids(s: string, c: char)
    requires 'a' <= c <= 'z'
    requires c !in s && (c as int - 32) as char !in s
    ensures c !in Lower(s)
  {
    forall i | 0 <= i < |s| ensures Lower(s)[i] != c {
      assert s[i] != c && s[i] != (c as int - 32) as char;
    }
  }

  /** A text without g and f, and either without u or shorter than "urgente", holds no
      dangerous term: each term starts with one of these letters. */
  lemma NoDangerousTerm(text: string)
    requires 'g' !in text && 'f' !in text && ('u' !in text || |text| < 7)
    ensures !HasDangerousTerm(text)
  {
    forall k | 0 <= k < |DangerousTerms| ensures !Contains(text, DangerousTerms[k]) {
      if k == 3 && |text| < 7 {
      } else {
        MissingFirstChar(text, DangerousTerms[k]);
      }
    }
  }

  /** Lower-casing a text without g, f (and u) in either case yields none of them. */
  lemma LowerAvoidsInitials(text: string)
    requires 'g' !in text && 'G' !in text && 'f' !in text && 'F' !in text
    requires |text| < 7 || ('u' !in text && 'U' !in text)
    ensures 'g' !in Lower(text) && 'f' !in Lower(text) && ('u' !in Lower(text) || |Lower(text)| < 7)
  {
    LowerAvoids(text, 'g');
    LowerAvoids(text, 'f');
    if |text| >= 7 {
      LowerAvoids(text, 'u');
    }
  }

  /** Such a text is harmless in any letter case. */
  lemma HarmlessText(text: string)
    requires 'g' !in text && 'G' !in text && 'f' !in text && 'F' !in text
    requires |text| < 7 || ('u' !in text && 'U' !in text)
    ensures !HasDangerousTerm(Lower(text))
  {
    LowerAvoidsInitials(text);
    NoDangerousTerm(Lower(text));
  }

  /** A transfer that passes rules 1-4 and whose texts lack the initials of the dangerous terms
      succeeds; a null key is checked as the empty string, which lacks them. */
  lemma HarmlessTransferSucceeds(f: Facts)
    requires !f.senderListed && !f.receiverListed && !StrangeValueAmount(f.value)
    requires !TooFrequent(f.history, f.now) && !OutOfAverage(f.value, f.history)
    requires forall text :: text in [f.description, KeyText(f.senderKey), KeyText(f.receiverKey)] ==>
               'g' !in text && 'G' !in text && 'f' !in text && 'F' !in text &&
               (|text| < 7 || ('u' !in text && 'U' !in text))
    ensures Classify(f) == Classification(Success, None, false)
  {
    HarmlessText(f.description);
    HarmlessText(KeyText(f.senderKey));
    HarmlessText(KeyText(f.receiverKey));
    assert !DangerousKeys(f.senderKey, f.receiverKey);
    SuccessOutcome(f);
  }

  /** A plain transfer ("lunch", 50.00, from the CPF key "111.111.111-11" to
      the e-mail key "bob@x.com"), between parties not blacklisted and with an empty history,
      succeeds. */
  lemma PlainTransferSucceeds(now: int)
    ensures Classify(Facts(false, false, 50.0, [], now, "lunch", Some("111.111.111-11"), Some("bob@x.com")))
            == Classification(Success, None, false)
  {
    HarmlessTransferSucceeds(Facts(false, false, 50.0, [], now, "lunch", Some("111.111.111-11"), Some("bob@x.com")));
  }
}
