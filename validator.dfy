/** The imperative part of the fraud-screening engine: the blacklist store, the rule steps that
    set a verdict on the transfer and list the receiver, and the validation pass that resolves
    both parties and runs the rules in order until one of them sets a status. */
module Validation {
  import opened Wrappers
  import opened FraudReasons
  import opened Users
  import opened Transactions
  import opened UserServices
  import opened Rules

  /** A blacklist row: the listed account and the time it was listed. */
  datatype BlacklistEntry = BlacklistEntry(user: User, createTime: int)

  /** The store's lookup, which finds the entry whose own primary key is `id`. */
  function GetUser(entries: map<nat, BlacklistEntry>, id: nat): (r: Option<User>)
    ensures r.Some? <==> id in entries
    ensures r.Some? ==> r.value == entries[id].user
  {
    if id in entries then Some(entries[id].user) else None
  }

  /** An account without an id counts as blacklisted; otherwise the store is asked with its id. */
  function IsBlacklistedIn(entries: map<nat, BlacklistEntry>, u: User): (b: bool)
    ensures u.id.None? ==> b
    ensures u.id.Some? ==> (b <==> u.id.value in entries)
  {
    u.id.None? || GetUser(entries, u.id.value).Some?
  }

  /** The blacklist table: entries keyed by their identity column, and the next identity value. */
  class BlacklistStore {
    var entries: map<nat, BlacklistEntry>
    var nextId: nat

    ghost predicate Valid()
      reads this
    {
      forall k :: k in entries ==> k < nextId
    }

    /** An empty table whose identity column starts at 1, so the first entry saved gets id 1. */
    constructor ()
      ensures Valid() && entries == map[] && nextId == 1
    {
      entries := map[];
      nextId := 1;
    }

    /** Inserts a new entry under the next identity value; nothing is ever updated or removed. */
    method Save(e: BlacklistEntry)
      requires Valid()
      modifies this
      ensures Valid()
      ensures entries == old(entries)[old(nextId) := e] && old(nextId) !in old(entries)
      ensures nextId == old(nextId) + 1
    {
      entries := entries[nextId := e];
      nextId := nextId + 1;
    }
  }

  /** What the rules see of a transfer whose parties are resolved. */
  function FactsOf(tx: Transaction, entries: map<nat, BlacklistEntry>, history: seq<Transaction>, now: int): Facts
  {
    Facts(IsBlacklistedIn(entries, tx.sender), IsBlacklistedIn(entries, tx.receiver), tx.value, history, now,
          tx.description, tx.sender.pixKey, tx.receiver.pixKey)
  }

  /** The transfer with a rule's status and reason set on it. */
  function Flag(tx: Transaction, rule: Rule): (r: Transaction)
    ensures r.status == Some(rule.Verdict()) && r.fraudReason == Some(rule.Reason())
    ensures r.(status := tx.status, fraudReason := tx.fraudReason) == tx
  {
    tx.(status := Some(rule.Verdict()), fraudReason := Some(rule.Reason()))
  }

  /** `runAndCheck`'s test after each rule: has a status been set? */
  predicate Classified(tx: Transaction)
  {
    tx.status.Some?
  }

  /** What the rule chain leaves: the classified transfer and the blacklist. */
  datatype Screening = Screening(tx: Transaction, entries: map<nat, BlacklistEntry>)

  /** The specification of the rule chain on a transfer whose parties are resolved: the first
      firing rule classifies it, and the receiver is listed under `nextEntryId` when that rule says
      so. A transfer that arrives with a status already set stops after the blacklist rule, the
      only rule that can still overwrite it. */
  function Screen(tx: Transaction, entries: map<nat, BlacklistEntry>, nextEntryId: nat,
                  history: seq<Transaction>, now: int): (s: Screening)
    ensures s.tx.status.Some?
    ensures tx.status.None? ==> (s.tx.status == Some(Success) <==> s.tx.fraudReason.None?)
    ensures s.tx.(status := tx.status, fraudReason := tx.fraudReason) == tx
    ensures s.entries == entries ||
            (s.entries == entries[nextEntryId := BlacklistEntry(tx.receiver, now)] &&
             s.tx.status == Some(Failed) && s.tx.fraudReason in {Some(StrangeValue), Some(HighFrequency)})
  {
    var f := FactsOf(tx, entries, history, now);
    ClassificationShape(f);
    var c := Classify(f);
    if tx.status.Some? && !UserBlacklistRule.Fires(f) then
      Screening(tx, entries)
    else
      Screening(
        tx.(status := Some(c.status), fraudReason := c.reason),
        if c.penalizeReceiver then entries[nextEntryId := BlacklistEntry(tx.receiver, now)] else entries)
  }

  /** The result of a whole validation pass: the classified transfer and the new store contents. */
  datatype ValidationOutcome = ValidationOutcome(tx: Transaction, users: seq<User>, entries: map<nat, BlacklistEntry>)

  /** The specification of a validation pass: resolve the sender, then the receiver, and screen
      the resolved transfer. */
  function ValidateSpec(tx: Transaction, users: seq<User>, entries: map<nat, BlacklistEntry>, nextEntryId: nat,
                        history: seq<Transaction>, now: int): (v: ValidationOutcome)
    ensures v.tx.status.Some?
    ensures tx.status.None? ==> (v.tx.status == Some(Success) <==> v.tx.fraudReason.None?)
    ensures v.tx.(sender := tx.sender, receiver := tx.receiver, status := tx.status, fraudReason := tx.fraudReason) == tx
    ensures v.tx.sender.pixKey == tx.sender.pixKey && v.tx.receiver.pixKey == tx.receiver.pixKey
    ensures users <= v.users && |v.users| <= |users| + 2
    ensures WellFormed(users) ==> WellFormed(v.users)
    ensures v.entries == entries ||
            (v.entries == entries[nextEntryId := BlacklistEntry(v.tx.receiver, now)] &&
             v.tx.status == Some(Failed) && v.tx.fraudReason in {Some(StrangeValue), Some(HighFrequency)})
  {
    var s := GetOrCreate(users, tx.sender);
    var rc := GetOrCreate(s.users, tx.receiver);
    var screened := Screen(tx.(sender := s.user, receiver := rc.user), entries, nextEntryId, history, now);
    ValidationOutcome(screened.tx, rc.users, screened.entries)
  }

  /** A pass fails a transfer with a listed party as USER_IN_BLACKLIST and lists no one, whatever
      else holds of it, even a value out of bounds. */
  lemma ListedPartyShortCircuits(tx: Transaction, users: seq<User>, entries: map<nat, BlacklistEntry>, nextEntryId: nat,
                                 history: seq<Transaction>, now: int)
    ensures var v := ValidateSpec(tx, users, entries, nextEntryId, history, now);
            IsBlacklistedIn(entries, v.tx.sender) || IsBlacklistedIn(entries, v.tx.receiver) ==>
              v.tx.status == Some(Failed) && v.tx.fraudReason == Some(UserInBlacklist) && v.entries == entries
  {
    var s := GetOrCreate(users, tx.sender);
    var rc := GetOrCreate(s.users, tx.receiver);
    BlacklistRuleOutcome(FactsOf(tx.(sender := s.user, receiver := rc.user), entries, history, now));
  }

  /** A pass over an unclassified transfer lists someone exactly when it fails the transfer as
      STRANGE_VALUE or HIGH_FREQUENCY, and the one it lists is the resolved receiver. */
  lemma ListingIffPenalty(tx: Transaction, users: seq<User>, entries: map<nat, BlacklistEntry>, nextEntryId: nat,
                          history: seq<Transaction>, now: int)
    requires tx.status.None? && nextEntryId !in entries
    ensures var v := ValidateSpec(tx, users, entries, nextEntryId, history, now);
            (v.entries != entries <==> v.tx.fraudReason in {Some(StrangeValue), Some(HighFrequency)}) &&
            (v.entries != entries ==> v.entries == entries[nextEntryId := BlacklistEntry(v.tx.receiver, now)])
  {
    var s := GetOrCreate(users, tx.sender);
    var rc := GetOrCreate(s.users, tx.receiver);
    var f := FactsOf(tx.(sender := s.user, receiver := rc.user), entries, history, now);
    ClassificationShape(f);
    if Classify(f).penalizeReceiver {
      assert nextEntryId in entries[nextEntryId := BlacklistEntry(rc.user, now)];
    }
  }

  /** After a pass, each party's non-null key still resolves to the account the transfer carries:
      resolving the receiver never disturbs the sender's resolution. */
  lemma PartiesStayResolved(tx: Transaction, users: seq<User>, entries: map<nat, BlacklistEntry>, nextEntryId: nat,
                            history: seq<Transaction>, now: int)
    ensures var v := ValidateSpec(tx, users, entries, nextEntryId, history, now);
            (tx.sender.pixKey.Some? ==> FindByPixKey(v.users, tx.sender.pixKey) == Some(v.tx.sender)) &&
            (tx.receiver.pixKey.Some? ==> FindByPixKey(v.users, tx.receiver.pixKey) == Some(v.tx.receiver))
  {
    var s := GetOrCreate(users, tx.sender);
    var rc := GetOrCreate(s.users, tx.receiver);
    if tx.sender.pixKey.Some? && |rc.users| > |s.users| {
      assert rc.users == s.users + [rc.users[|s.users|]];
      FindStableUnderAppend(s.users, rc.users[|s.users|], tx.sender.pixKey);
    }
  }

  /** The lookup by entry key confuses identities: with one entry, stored under key 1 and listing
      some other account, the first account the directory creates gets id 1 and so counts as
      listed, and its transfer fails as USER_IN_BLACKLIST. */
  lemma EntryKeyCollision(tx: Transaction, other: User, listedAt: int, history: seq<Transaction>, now: int)
    requires tx.sender.pixKey.Some? && other.pixKey != tx.sender.pixKey
    ensures var v := ValidateSpec(tx, [], map[1 := BlacklistEntry(other, listedAt)], 2, history, now);
            v.tx.sender.id == Some(1) && v.tx.sender != other &&
            v.tx.status == Some(Failed) && v.tx.fraudReason == Some(UserInBlacklist)
  {
    var entries := map[1 := BlacklistEntry(other, listedAt)];
    var s := GetOrCreate([], tx.sender);
    var rc := GetOrCreate(s.users, tx.receiver);
    assert s.user.id == Some(1);
    BlacklistRuleOutcome(FactsOf(tx.(sender := s.user, receiver := rc.user), entries, history, now));
  }

  /** Two different keys resolved against an empty directory create accounts 1 and 2. */
  lemma FreshPair(sender: User, receiver: User)
    requires sender.pixKey.Some? && receiver.pixKey.Some? && sender.pixKey != receiver.pixKey
    ensures var s := GetOrCreate([], sender);
            var rc := GetOrCreate(s.users, receiver);
            s.user.id == Some(1) && rc.user.id == Some(2) && |rc.users| == 2 &&
            s.user.pixKey == sender.pixKey && rc.user.pixKey == receiver.pixKey
  {
    var s := GetOrCreate([], sender);
    assert s.users == [s.user];
    assert FindByPixKey(s.users, receiver.pixKey).None?;
  }

  /** A resolved transfer with ids on both parties, screened against an empty blacklist with no
      history, succeeds when it passes rule 2 and its texts lack the initials of the dangerous
      terms. */
  lemma HarmlessScreenSucceeds(tx: Transaction, now: int)
    requires tx.status.None? && tx.sender.id.Some? && tx.receiver.id.Some?
    requires !StrangeValueAmount(tx.value)
    requires forall text :: text in [tx.description, KeyText(tx.sender.pixKey), KeyText(tx.receiver.pixKey)] ==>
               'g' !in text && 'G' !in text && 'f' !in text && 'F' !in text &&
               (|text| < 7 || ('u' !in text && 'U' !in text))
    ensures Screen(tx, map[], 1, [], now) == Screening(tx.(status := Some(Success), fraudReason := None), map[])
  {
    var f := FactsOf(tx, map[], [], now);
    assert f == Facts(false, false, tx.value, [], now, tx.description, tx.sender.pixKey, tx.receiver.pixKey);
    HarmlessTransferSucceeds(f);
  }

  /** Through a whole pass over an empty directory and an empty blacklist, a transfer between two
      different keys with an in-range value, no history and texts free of the initials of the
      dangerous terms succeeds: two accounts are created and no one is listed. */
  lemma HarmlessPassSucceeds(tx: Transaction, now: int)
    requires tx.status.None?
    requires tx.sender.pixKey.Some? && tx.receiver.pixKey.Some? && tx.sender.pixKey != tx.receiver.pixKey
    requires !StrangeValueAmount(tx.value)
    requires forall text :: text in [tx.description, tx.sender.pixKey.value, tx.receiver.pixKey.value] ==>
               'g' !in text && 'G' !in text && 'f' !in text && 'F' !in text &&
               (|text| < 7 || ('u' !in text && 'U' !in text))
    ensures var v := ValidateSpec(tx, [], map[], 1, [], now);
            v.tx.status == Some(Success) && v.tx.fraudReason.None? && v.entries == map[] && |v.users| == 2
  {
    FreshPair(tx.sender, tx.receiver);
    var s := GetOrCreate([], tx.sender);
    var rc := GetOrCreate(s.users, tx.receiver);
    var resolved := tx.(sender := s.user, receiver := rc.user);
    assert [resolved.description, KeyText(resolved.sender.pixKey), KeyText(resolved.receiver.pixKey)] ==
           [tx.description, tx.sender.pixKey.value, tx.receiver.pixKey.value];
    HarmlessScreenSucceeds(resolved, now);
  }

  /** Every account of a well-formed directory has an id. */
  lemma StoredAccountsHaveIds(users: seq<User>, u: User)
    requires WellFormed(users) && u in users
    ensures u.id.Some?
  {
    var i :| 0 <= i < |users| && users[i] == u;
  }

  /** With a well-formed directory, both resolved parties have ids, so the blacklist rule fires
      only on an actual store hit: the missing-id case of the lookup never arises in a pass. */
  lemma ResolvedPartiesHaveIds(tx: Transaction, users: seq<User>, entries: map<nat, BlacklistEntry>, nextEntryId: nat,
                               history: seq<Transaction>, now: int)
    requires WellFormed(users)
    ensures var v := ValidateSpec(tx, users, entries, nextEntryId, history, now);
            v.tx.sender.id.Some? && v.tx.receiver.id.Some? &&
            (IsBlacklistedIn(entries, v.tx.sender) <==> v.tx.sender.id.value in entries) &&
            (IsBlacklistedIn(entries, v.tx.receiver) <==> v.tx.receiver.id.value in entries)
  {
    var s := GetOrCreate(users, tx.sender);
    var rc := GetOrCreate(s.users, tx.receiver);
    StoredAccountsHaveIds(rc.users, rc.user);
    assert s.user in rc.users;
    StoredAccountsHaveIds(rc.users, s.user);
  }

  /** The validator, with the user service that resolves parties and the blacklist store. */
  class TransactionValidator {
    const userService: UserService
    const blacklist: BlacklistStore

    ghost predicate Valid()
      reads userService, blacklist
    {
      userService.Valid() && blacklist.Valid()
    }

    constructor (userService: UserService, blacklist: BlacklistStore)
      ensures this.userService == userService && this.blacklist == blacklist
    {
      this.userService := userService;
      this.blacklist := blacklist;
    }

    /** Whether the store lists an account (an account without an id always counts as listed). */
    function IsBlacklisted(u: User): (b: bool)
      reads blacklist
      ensures u.id.None? ==> b
      ensures u.id.Some? ==> (b <==> u.id.value in blacklist.entries)
    {
      IsBlacklistedIn(blacklist.entries, u)
    }

    /** Lists an account, stamped with the given time. */
    method AddUserToBlackList(u: User, now: int)
      requires blacklist.Valid()
      modifies blacklist
      ensures blacklist.Valid()
      ensures blacklist.entries == old(blacklist.entries)[old(blacklist.nextId) := BlacklistEntry(u, now)]
      ensures blacklist.nextId == old(blacklist.nextId) + 1
    {
      blacklist.Save(BlacklistEntry(u, now));
    }

    /** Rule 1: if either party is listed, FAILED / USER_IN_BLACKLIST. */
    method ValidateUserBlacklist(tx: Transaction) returns (r: Transaction)
      ensures r == if IsBlacklistedIn(blacklist.entries, tx.sender) || IsBlacklistedIn(blacklist.entries, tx.receiver)
                   then Flag(tx, UserBlacklistRule) else tx
    {
      var users := [tx.sender, tx.receiver];
      r := tx;
      assert users[0] == tx.sender && users[1] == tx.receiver;
      if exists i :: 0 <= i < |users| && IsBlacklisted(users[i]) {
        r := tx.(status := Some(Failed), fraudReason := Some(UserInBlacklist));
      }
    }

    /** Rule 2: a value outside [0.5, 10000.0] gives FAILED / STRANGE_VALUE and lists the receiver. */
    method ValidateTransactionValue(tx: Transaction, now: int) returns (r: Transaction)
      requires blacklist.Valid()
      modifies blacklist
      ensures blacklist.Valid()
      ensures r == if StrangeValueAmount(tx.value) then Flag(tx, TransactionValueRule) else tx
      ensures blacklist.entries ==
                if StrangeValueAmount(tx.value)
                then old(blacklist.entries)[old(blacklist.nextId) := BlacklistEntry(tx.receiver, now)]
                else old(blacklist.entries)
      ensures blacklist.nextId == old(blacklist.nextId) + (if StrangeValueAmount(tx.value) then 1 else 0)
    {
      r := tx;
      if tx.value > MaxValue || tx.value < MinValue {
        r := tx.(status := Some(Failed), fraudReason := Some(StrangeValue));
        AddUserToBlackList(tx.receiver, now);
      }
    }

    /** Rule 3: five or more recent transfers give FAILED / HIGH_FREQUENCY and list the receiver. */
    method ValidateHighFrequency(tx: Transaction, recent: seq<Transaction>, now: int) returns (r: Transaction)
      requires blacklist.Valid()
      modifies blacklist
      ensures blacklist.Valid()
      ensures r == if TooFrequent(recent, now) then Flag(tx, HighFrequencyRule) else tx
      ensures blacklist.entries ==
                if TooFrequent(recent, now)
                then old(blacklist.entries)[old(blacklist.nextId) := BlacklistEntry(tx.receiver, now)]
                else old(blacklist.entries)
      ensures blacklist.nextId == old(blacklist.nextId) + (if TooFrequent(recent, now) then 1 else 0)
    {
      r := tx;
      var found := RecentCount(recent, now);
      if found >= FrequencyThreshold {
        r := tx.(status := Some(Failed), fraudReason := Some(HighFrequency));
        AddUserToBlackList(tx.receiver, now);
      }
    }

    /** Rule 4: with five or more history entries, a value strictly beyond four times their mean or
        strictly below a quarter of it gives FAILED / OUT_OF_AVERAGE_VALUE. */
    method ValidateOutOfAverageValue(tx: Transaction, last: seq<Transaction>) returns (r: Transaction)
      ensures r == if OutOfAverage(tx.value, last) then Flag(tx, OutOfAverageRule) else tx
    {
      r := tx;
      if |last| == 0 || |last| < AverageMinHistory {
        return;
      }
      var average := Mean(last);
      var upperLimit := average * ToleranceFactor;
      var lowerLimit := average / ToleranceFactor;
      if tx.value > upperLimit || tx.value < lowerLimit {
        r := tx.(status := Some(Failed), fraudReason := Some(OutOfAverageValue));
      }
    }

    /** Rule 5: a dangerous term in the lower-cased description gives PENDING_REVIEW / SUSPICIOUS_DESCRIPTION. */
    method ValidateDangerousDescription(tx: Transaction) returns (r: Transaction)
      ensures r == if DangerousDescription(tx.description) then Flag(tx, DangerousDescriptionRule) else tx
    {
      r := tx;
      var normalized := Lower(tx.description);
      if HasDangerousTerm(normalized) {
        r := tx.(status := Some(PendingReview), fraudReason := Some(SuspiciousDescription));
      }
    }

    /** Rule 6: a dangerous term in either lower-cased key (a null key read as "") gives
        PENDING_REVIEW / SUSPICIOUS_PIX_KEY. */
    method ValidateDangerousKeys(tx: Transaction) returns (r: Transaction)
      ensures r == if DangerousKeys(tx.sender.pixKey, tx.receiver.pixKey) then Flag(tx, DangerousKeysRule) else tx
    {
      r := tx;
      var senderKey := Lower(KeyText(tx.sender.pixKey));
      var receiverKey := Lower(KeyText(tx.receiver.pixKey));
      if HasDangerousTerm(senderKey) || HasDangerousTerm(receiverKey) {
        r := tx.(status := Some(PendingReview), fraudReason := Some(SuspiciousPixKey));
      }
    }

    /** The rule chain of a validation pass, each rule followed by the `runAndCheck` test.
        `recent` is what the store returns as the receiver's last 15 received transfers. */
    method RunRules(tx: Transaction, recent: seq<Transaction>, now: int) returns (r: Transaction)
      requires blacklist.Valid()
      modifies blacklist
      ensures blacklist.Valid()
      ensures blacklist.nextId == old(blacklist.nextId) + (if blacklist.entries == old(blacklist.entries) then 0 else 1)
      ensures Screening(r, blacklist.entries) == Screen(tx, old(blacklist.entries), old(blacklist.nextId), recent, now)
    {
      ghost var f := FactsOf(tx, blacklist.entries, recent, now);
      ClassifyChain(f);
      var t := tx;
      t := ValidateUserBlacklist(t);
      if Classified(t) { return t; }
      ghost var n := blacklist.nextId;
      assert n !in blacklist.entries;
      t := ValidateTransactionValue(t, now);
      assert n in blacklist.entries <==> blacklist.entries != old(blacklist.entries);
      if Classified(t) { return t; }
      t := ValidateHighFrequency(t, recent, now);
      assert n in blacklist.entries <==> blacklist.entries != old(blacklist.entries);
      if Classified(t) { return t; }
      t := ValidateOutOfAverageValue(t, recent);
      if Classified(t) { return t; }
      t := ValidateDangerousDescription(t);
      if Classified(t) { return t; }
      t := ValidateDangerousKeys(t);
      if Classified(t) { return t; }
      t := t.(status := Some(Success), fraudReason := None);
      return t;
    }

    /** The validation pass: resolve both parties through the user service, then run the rules.
        `recent` is what the store returns as the resolved receiver's last 15 received transfers,
        fetched once rules 1 and 2 have passed; `now` is the clock reading of the pass. */
    method Validate(tx: Transaction, recent: seq<Transaction>, now: int) returns (r: Transaction)
      requires Valid()
      requires |recent| <= 15
      modifies userService, blacklist
      ensures Valid()
      ensures blacklist.nextId == old(blacklist.nextId) + (if blacklist.entries == old(blacklist.entries) then 0 else 1)
      ensures var v := ValidateSpec(tx, old(userService.users), old(blacklist.entries), old(blacklist.nextId), recent, now);
              r == v.tx && userService.users == v.users && blacklist.entries == v.entries
    {
      var t := tx;
      var sender := userService.GetOrCreateUser(t.sender);
      t := t.(sender := sender);
      var receiver := userService.GetOrCreateUser(t.receiver);
      t := t.(receiver := receiver);
      r := RunRules(t, recent, now);
    }
  }
}
