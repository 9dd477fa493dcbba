# PIX transfer fraud screening — a Dafny model

This project models the core of a PIX transfer API that screens each transfer for fraud before it is stored.

- **The validator.** A new transfer gets its sender and receiver resolved by PIX key. Six rules then run in a fixed order:
  1. either party blacklisted;
  2. value out of bounds;
  3. too many recent transfers to the receiver;
  4. value far from the receiver's average;
  5. dangerous words in the description;
  6. dangerous words in a PIX key.

  The first rule that sets a status stops the pass. If none fires, the transfer is SUCCESS. Rules 2 and 3 also put the receiver on the blacklist.
- **The user service.** It resolves a party by PIX key. On an unknown key it stores a placeholder account whose name is a sentinel and whose tax id is the key for a CPF key and a sentinel otherwise.
- **The transfer service.** It creates transfers through the validator. It also updates and deletes them by id, and applies an analyst's approve or reject decision.
- **The response mapping.** It shows fraud fields only when a reason is set.
- **The reason catalogue.** It is fixed.

Modules:

- `Wrappers`: `Option`, `Result`, `Outcome`.
- `FraudReasons`: the six reasons, their codes and descriptions, and lookup by code.
- `Users`: the account record and its response summary.
- `Transactions`: the transfer record, its status and the response mapping.
- `UserServices`:
  - the directory lookup;
  - the placeholder account;
  - `GetOrCreate`, the get-or-create specification;
  - the `UserService` class, whose `users` sequence is updated in place.
- `Rules`: the pure checks of the six rules, as a table of rules walked in order (`Classify`), and the proof that this table is the engine's guarded chain (`ClassifyChain`).
- `Validation`:
  - the `BlacklistStore` class;
  - `Screen`, the specification of the rule chain, and `ValidateSpec`, that of a whole pass;
  - the `TransactionValidator` class. Its rule methods change the transfer and the blacklist step by step. `RunRules` is proved equal to `Screen`, and `Validate` to `ValidateSpec`.
- `TransactionServices`: the `TransactionService` class, over a store of transfers keyed by id, with an error path for a missing id.

Representation choices:

- Instants are integer seconds. The current time is a parameter `now`.
- Amounts are exact `real`s.
- The receiver's last fifteen transfers, which the database query returns, are an input sequence of at most fifteen entries.
- A transfer is a value. Each step of the validator returns the updated transfer; the code instead changes one object in place.

Three behaviours of the code a reader may not expect:

- `RejectTransaction` leaves a FAILED transfer with no fraud reason.
- `GetUser` finds a blacklist entry by the entry's own key, not by the user's id. `EntryKeyCollision` shows the consequence: a new account whose id equals the key of an entry listing someone else counts as listed.
- `Update` ends in an error even when the id exists. The replacement it stores has no status, and the response mapping dereferences the status.

## Model

| member | source | states |
|---|---|---|
| FraudReasons.FraudReason.Name | api-pix-validator-wip-pix/src/main/java/com/validator/model/enums/FraudReason.java:8-13 | the identifier of each of the six constants, as `name()` returns it and a string-mapped column stores it |
| FraudReasons.FraudReason.Code | api-pix-validator-wip-pix/src/main/java/com/validator/model/enums/FraudReason.java:8-13 | each reason's code is its constant's name, and non-empty |
| FraudReasons.FraudReason.Description | api-pix-validator-wip-pix/src/main/java/com/validator/model/enums/FraudReason.java:8-21 | each reason carries a fixed non-empty description |
| FraudReasons.CatalogueIsComplete | api-pix-validator-wip-pix/src/main/java/com/validator/model/enums/FraudReason.java:8-13 | there are exactly six reasons, all different, and every reason is among them |
| FraudReasons.FromCode | api-pix-validator-wip-pix/src/main/java/com/validator/model/enums/FraudReason.java:8-13 | a found reason has the code looked up; no reason is found only when no reason has that code |
| FraudReasons.CodeRoundTrip | api-pix-validator-wip-pix/src/main/java/com/validator/model/enums/FraudReason.java:8-13 | looking up a reason's code gives back that reason |
| FraudReasons.CodesAreDistinct | api-pix-validator-wip-pix/src/main/java/com/validator/model/enums/FraudReason.java:8-13 | two reasons share a code if and only if they are the same reason |
| Users.User.ToResponse | api-pix-validator-wip-pix/src/main/java/com/validator/model/User.java:29-40 | the summary copies id, tax id, name, key and key type |
| Transactions.Status.Name | api-pix-validator-wip-pix/src/main/java/com/validator/model/Transaction.java:55 | every status is reported by a non-empty name |
| Transactions.StatusFromName | api-pix-validator-wip-pix/src/main/java/com/validator/model/Transaction.java:55 | a name maps back to the status that has it, and to nothing when no status does |
| Transactions.ToResponse | api-pix-validator-wip-pix/src/main/java/com/validator/model/Transaction.java:46-63 | id, value and description are copied; the parties are summarised by their own mapping; the status is reported by name and must be set; fraud code and description are present exactly when a reason is set, and are that reason's |
| Transactions.ResponseDeterminesClassification | api-pix-validator-wip-pix/src/main/java/com/validator/model/Transaction.java:55-60 | the status and the reason can be read back from the response |
| UserServices.FindByPixKey | api-pix-validator-wip-pix/src/main/java/com/validator/service/UserService.java:17 | a hit is a stored account with that key; a miss means no stored account has it, or the key is null |
| UserServices.FindAfterAppend | api-pix-validator-wip-pix/src/main/java/com/validator/service/UserService.java:17 | after saving an account under a key nobody had, that key resolves to it |
| UserServices.FindStableUnderAppend | api-pix-validator-wip-pix/src/main/java/com/validator/service/UserService.java:17 | saving another account does not change what a known key resolves to |
| UserServices.GetNewUser | api-pix-validator-wip-pix/src/main/java/com/validator/service/UserService.java:21-35 | the placeholder's tax id is the key when the key type is CPF and the sentinel otherwise; its name is the sentinel; key and key type are copied; it has no id |
| UserServices.GetOrCreate | api-pix-validator-wip-pix/src/main/java/com/validator/service/UserService.java:16-18 | the account returned has the requested key and is in the directory; the directory only grows, by at most one; its well-formedness (ids in order, unique keys) is kept; a non-null key now resolves to the account returned |
| UserServices.ResolveHit | api-pix-validator-wip-pix/src/main/java/com/validator/service/UserService.java:17 | a stored key returns the stored account and saves nothing |
| UserServices.ResolveMiss | api-pix-validator-wip-pix/src/main/java/com/validator/service/UserService.java:17-35 | an unknown key saves exactly one placeholder under the next id and returns it; the input's other fields are ignored |
| UserServices.ResolveIdempotent | api-pix-validator-wip-pix/src/main/java/com/validator/service/UserService.java:17 | a second resolution of the same non-null key returns the same account and saves nothing more |
| UserServices.NullKeyAlwaysCreates | api-pix-validator-wip-pix/src/main/java/com/validator/service/UserService.java:17 | a null key never resolves, so each resolution of it saves a new account |
| UserServices.UserService.GetOrCreateUser | api-pix-validator-wip-pix/src/main/java/com/validator/service/UserService.java:16-18 | the service's directory and result are those given by GetOrCreate; well-formedness is kept |
| Rules.DangerousTerms | api-pix-validator-wip-pix/src/main/java/com/validator/service/validators/TransactionValidator.java:27 | the four dangerous terms "golpe", "fraude", "fake" and "urgente"; the keys rule's local list at line 90 is the same |
| Rules.Lower | api-pix-validator-wip-pix/src/main/java/com/validator/service/validators/TransactionValidator.java:76 | lower-casing keeps the length, lower-cases each ASCII letter and keeps every other character |
| Rules.LowerIdempotent | api-pix-validator-wip-pix/src/main/java/com/validator/service/validators/TransactionValidator.java:76 | lower-casing twice is lower-casing once |
| Rules.ContainsIffOccurs | api-pix-validator-wip-pix/src/main/java/com/validator/service/validators/TransactionValidator.java:77 | the substring test holds exactly when the term occurs at some position |
| Rules.Contains | api-pix-validator-wip-pix/src/main/java/com/validator/service/validators/TransactionValidator.java:77 | the left-to-right substring search; ContainsIffOccurs proves it holds exactly when the term occurs at some position |
| Rules.HasDangerousTerm | api-pix-validator-wip-pix/src/main/java/com/validator/service/validators/TransactionValidator.java:77 | a text is dangerous exactly when it contains at least one of the four terms |
| Rules.DangerousDescription | api-pix-validator-wip-pix/src/main/java/com/validator/service/validators/TransactionValidator.java:76-77 | the description rule fires when the lower-cased description contains a term |
| Rules.KeyText | api-pix-validator-wip-pix/src/main/java/com/validator/service/validators/TransactionValidator.java:92-93 | a null key is read as the empty string, a non-null key as itself |
| Rules.DangerousKeys | api-pix-validator-wip-pix/src/main/java/com/validator/service/validators/TransactionValidator.java:92-97 | the keys rule fires when either lower-cased key text contains a term |
| Rules.DangerousInAnyCase | api-pix-validator-wip-pix/src/main/java/com/validator/service/validators/TransactionValidator.java:76-77 | a text containing a dangerous term in any letter case is dangerous after lower-casing |
| Rules.NullKeysAreHarmless | api-pix-validator-wip-pix/src/main/java/com/validator/service/validators/TransactionValidator.java:92-97 | two null keys, read as "", contain no dangerous term |
| Rules.MinutesBetween | api-pix-validator-wip-pix/src/main/java/com/validator/service/validators/TransactionValidator.java:109 | the whole minutes between two instants, truncated toward zero |
| Rules.IsRecent | api-pix-validator-wip-pix/src/main/java/com/validator/service/validators/TransactionValidator.java:109 | an entry is recent when it has a creation date and at most five whole minutes separate it from now |
| Rules.RecentIffUnder360Seconds | api-pix-validator-wip-pix/src/main/java/com/validator/service/validators/TransactionValidator.java:109 | an entry is recent exactly when it has a creation time less than 360 seconds before now, including any future time |
| Rules.RecentCount | api-pix-validator-wip-pix/src/main/java/com/validator/service/validators/TransactionValidator.java:108-110 | the number of recent entries; never more than the history's length (RecentCountAppend, AllRecentCounted and NoneRecentCounted give its value) |
| Rules.AllRecentCounted | api-pix-validator-wip-pix/src/main/java/com/validator/service/validators/TransactionValidator.java:108-110 | when every entry is recent, all are counted |
| Rules.NoneRecentCounted | api-pix-validator-wip-pix/src/main/java/com/validator/service/validators/TransactionValidator.java:108-110 | when no entry is recent, the count is zero |
| Rules.RecentCountAppend | api-pix-validator-wip-pix/src/main/java/com/validator/service/validators/TransactionValidator.java:108-110 | the count over two histories put together is the sum of their counts |
| Rules.FrequencyThresholdExample | api-pix-validator-wip-pix/src/main/java/com/validator/service/validators/TransactionValidator.java:105-116 | five transfers made one to five minutes ago are too frequent; the first four alone are not |
| Rules.TooFrequent | api-pix-validator-wip-pix/src/main/java/com/validator/service/validators/TransactionValidator.java:108-112 | the frequency rule fires when five or more history entries are recent |
| Rules.MixedHistoryExample | api-pix-validator-wip-pix/src/main/java/com/validator/service/validators/TransactionValidator.java:105-116 | four transfers one to four minutes old followed by any undated or older ones count as four and do not trigger the rule |
| Rules.MeanOfUniform | api-pix-validator-wip-pix/src/main/java/com/validator/service/validators/TransactionValidator.java:124-127 | the mean of equal values is that value |
| Rules.Sum | api-pix-validator-wip-pix/src/main/java/com/validator/service/validators/TransactionValidator.java:124-125 | the sum of the values of the history entries, zero for an empty history |
| Rules.Mean | api-pix-validator-wip-pix/src/main/java/com/validator/service/validators/TransactionValidator.java:124-127 | the arithmetic mean of the values of a non-empty history; MeanOfUniform and AverageBounds state its use |
| Rules.AverageBounds | api-pix-validator-wip-pix/src/main/java/com/validator/service/validators/TransactionValidator.java:129-133 | with five entries of mean 100, exactly 400 and exactly 25 pass, while 401 and 24 deviate: both bounds are strict |
| Rules.OutOfAverage | api-pix-validator-wip-pix/src/main/java/com/validator/service/validators/TransactionValidator.java:119-133 | the average rule fires only with five or more history entries, and then when the value is strictly above four times their mean or strictly below a quarter of it |
| Rules.StrangeValueAmount | api-pix-validator-wip-pix/src/main/java/com/validator/service/validators/TransactionValidator.java:68 | a value is strange when it is strictly above 10000.0 or strictly below 0.5 |
| Rules.ValueBounds | api-pix-validator-wip-pix/src/main/java/com/validator/service/validators/TransactionValidator.java:64-68 | exactly 10000.0 and exactly 0.5 are allowed; 10000.01 and 0.49 are strange |
| Rules.TermInDescription | api-pix-validator-wip-pix/src/main/java/com/validator/service/validators/TransactionValidator.java:75-79 | a description in which any casing of a dangerous term occurs at some position is dangerous |
| Rules.TermInSenderKey | api-pix-validator-wip-pix/src/main/java/com/validator/service/validators/TransactionValidator.java:92-97 | a sender key in which any casing of a dangerous term occurs at some position is dangerous, whatever the receiver key |
| Rules.UrgentDescriptionExample | api-pix-validator-wip-pix/src/main/java/com/validator/service/validators/TransactionValidator.java:75-79 | "Pagamento URGENTE" is a dangerous description |
| Rules.FakeSenderKeyExample | api-pix-validator-wip-pix/src/main/java/com/validator/service/validators/TransactionValidator.java:92-97 | a sender key containing "fake" is dangerous, whatever the receiver key |
| Rules.Rule.Fires | api-pix-validator-wip-pix/src/main/java/com/validator/service/validators/TransactionValidator.java:55-137 | each rule's check: a listed party, a strange value, too many recent transfers, a value out of average, a dangerous description, dangerous keys |
| Rules.Rule.Verdict | api-pix-validator-wip-pix/src/main/java/com/validator/service/validators/TransactionValidator.java:55-137 | the description and keys rules set PENDING_REVIEW; the other four set FAILED |
| Rules.Rule.Reason | api-pix-validator-wip-pix/src/main/java/com/validator/service/validators/TransactionValidator.java:55-137 | the reasons USER_IN_BLACKLIST, STRANGE_VALUE, HIGH_FREQUENCY, OUT_OF_AVERAGE_VALUE, SUSPICIOUS_DESCRIPTION and SUSPICIOUS_PIX_KEY, one per rule |
| Rules.Rule.PenalizesReceiver | api-pix-validator-wip-pix/src/main/java/com/validator/service/validators/TransactionValidator.java:64-117 | only the value and frequency rules list the receiver |
| Rules.RuleOrder | api-pix-validator-wip-pix/src/main/java/com/validator/service/validators/TransactionValidator.java:38-46 | the rules run in the order blacklist, value, frequency, average, description, keys |
| Rules.FirstFiring | api-pix-validator-wip-pix/src/main/java/com/validator/service/validators/TransactionValidator.java:147-150 | the rule returned is one of the list and fires |
| Rules.FirstFiringIsLeast | api-pix-validator-wip-pix/src/main/java/com/validator/service/validators/TransactionValidator.java:38-46 | the rule at a position is returned if and only if it fires and no earlier rule does |
| Rules.FirstFiringNone | api-pix-validator-wip-pix/src/main/java/com/validator/service/validators/TransactionValidator.java:38-48 | nothing is returned if and only if no rule fires |
| Rules.Classify | api-pix-validator-wip-pix/src/main/java/com/validator/service/validators/TransactionValidator.java:38-51 | the reason is absent exactly when no rule fires; otherwise the verdict, reason and penalty are those of a rule of the order that fires (ClassifyIsFirstFiring: the first one) |
| Rules.RuleOrderDistinct | api-pix-validator-wip-pix/src/main/java/com/validator/service/validators/TransactionValidator.java:38-46 | six different rules setting six different reasons |
| Rules.ClassifyIsFirstFiring | api-pix-validator-wip-pix/src/main/java/com/validator/service/validators/TransactionValidator.java:38-46 | short-circuit: a rule's reason is reported if and only if it fires and no earlier rule fires, and then its status and penalty are reported too |
| Rules.NoRuleFires | api-pix-validator-wip-pix/src/main/java/com/validator/service/validators/TransactionValidator.java:48-51 | SUCCESS with no reason and no penalty if and only if no rule fires |
| Rules.ClassifyChain | api-pix-validator-wip-pix/src/main/java/com/validator/service/validators/TransactionValidator.java:38-51 | the table-driven pass equals the chain of guarded steps, in the engine's order, with each rule's status, reason and penalty |
| Rules.BlacklistRuleOutcome | api-pix-validator-wip-pix/src/main/java/com/validator/service/validators/TransactionValidator.java:55-61 | FAILED / USER_IN_BLACKLIST with no listing if and only if a party is listed |
| Rules.ValueRuleOutcome | api-pix-validator-wip-pix/src/main/java/com/validator/service/validators/TransactionValidator.java:64-72 | FAILED / STRANGE_VALUE with the receiver listed if and only if no party is listed and the value is out of bounds |
| Rules.FrequencyRuleOutcome | api-pix-validator-wip-pix/src/main/java/com/validator/service/validators/TransactionValidator.java:105-116 | FAILED / HIGH_FREQUENCY with the receiver listed if and only if rules 1-2 pass and at least five entries are recent |
| Rules.AverageRuleOutcome | api-pix-validator-wip-pix/src/main/java/com/validator/service/validators/TransactionValidator.java:119-136 | FAILED / OUT_OF_AVERAGE_VALUE with no listing if and only if rules 1-3 pass, there are at least five entries and the value is strictly beyond four times the mean or strictly below a quarter of it |
| Rules.DescriptionRuleOutcome | api-pix-validator-wip-pix/src/main/java/com/validator/service/validators/TransactionValidator.java:75-83 | PENDING_REVIEW / SUSPICIOUS_DESCRIPTION if and only if rules 1-4 pass and the lower-cased description contains a dangerous term |
| Rules.KeyRuleOutcome | api-pix-validator-wip-pix/src/main/java/com/validator/service/validators/TransactionValidator.java:85-103 | PENDING_REVIEW / SUSPICIOUS_PIX_KEY if and only if rules 1-5 pass and a lower-cased key contains a dangerous term |
| Rules.SuccessOutcome | api-pix-validator-wip-pix/src/main/java/com/validator/service/validators/TransactionValidator.java:48-51 | SUCCESS with no reason if and only if all six checks pass |
| Rules.ClassificationShape | api-pix-validator-wip-pix/src/main/java/com/validator/service/validators/TransactionValidator.java:38-51 | the reason is absent exactly on SUCCESS; FAILED goes with the reasons of rules 1-4 and PENDING_REVIEW with those of rules 5-6; the receiver is listed exactly for STRANGE_VALUE and HIGH_FREQUENCY |
| Rules.HarmlessTransferSucceeds | api-pix-validator-wip-pix/src/main/java/com/validator/service/validators/TransactionValidator.java:38-51 | a transfer that passes rules 1-4, with any history and with null or non-null keys (a null key read as the empty string), and whose texts lack the dangerous terms' initial letters succeeds |
| Rules.PlainTransferSucceeds | api-pix-validator-wip-pix/src/main/java/com/validator/service/validators/TransactionValidator.java:38-51 | a plain 50.0 lunch transfer between unlisted accounts with no history succeeds |
| Validation.GetUser | api-pix-validator-wip-pix/src/main/java/com/validator/service/validators/TransactionValidator.java:140 | the store's lookup finds the entry stored under the given key, and only that |
| Validation.IsBlacklistedIn | api-pix-validator-wip-pix/src/main/java/com/validator/service/validators/TransactionValidator.java:139-141 | an account with no id always counts as listed; otherwise it is listed exactly when its id is a key of the store |
| Validation.TransactionValidator.IsBlacklisted | api-pix-validator-wip-pix/src/main/java/com/validator/service/validators/TransactionValidator.java:139-141 | the same rule over the validator's blacklist store |
| Validation.BlacklistStore.Save | api-pix-validator-wip-pix/src/main/java/com/validator/service/validators/TransactionValidator.java:143-145 | one new entry under a fresh key; nothing else changes |
| Validation.FactsOf | api-pix-validator-wip-pix/src/main/java/com/validator/service/validators/TransactionValidator.java:34-52 | what a pass reads: whether each party is listed, the value, the receiver's history, the clock, the description and both keys |
| Validation.Flag | api-pix-validator-wip-pix/src/main/java/com/validator/service/validators/TransactionValidator.java:59-60 | the rule's status and reason are set, and nothing else of the transfer changes |
| Validation.Classified | api-pix-validator-wip-pix/src/main/java/com/validator/service/validators/TransactionValidator.java:147-150 | the status test after each rule: a status has been set |
| Validation.Screen | api-pix-validator-wip-pix/src/main/java/com/validator/service/validators/TransactionValidator.java:38-51 | the rule chain always leaves a status; for an unclassified transfer the reason is absent exactly on SUCCESS; only status and reason change; the blacklist either stays or gains one entry for the receiver with a FAILED STRANGE_VALUE or HIGH_FREQUENCY verdict |
| Validation.ValidateSpec | api-pix-validator-wip-pix/src/main/java/com/validator/service/validators/TransactionValidator.java:34-52 | every pass leaves a status set; for an unclassified transfer the reason is absent exactly on SUCCESS; only the parties, status and reason change; keys stay as given; the directory grows by at most two and stays well formed; the blacklist either stays or gains one entry for the receiver with a FAILED STRANGE_VALUE or HIGH_FREQUENCY verdict |
| Validation.ListedPartyShortCircuits | api-pix-validator-wip-pix/src/main/java/com/validator/service/validators/TransactionValidator.java:55-61 | a listed party gives FAILED / USER_IN_BLACKLIST and lists no one, even for a value out of bounds |
| Validation.ListingIffPenalty | api-pix-validator-wip-pix/src/main/java/com/validator/service/validators/TransactionValidator.java:64-117 | the blacklist changes if and only if the reason is STRANGE_VALUE or HIGH_FREQUENCY, and then gains exactly one entry, for the receiver |
| Validation.PartiesStayResolved | api-pix-validator-wip-pix/src/main/java/com/validator/service/validators/TransactionValidator.java:35-36 | after a pass each party's non-null key resolves to the account the transfer carries, whether or not the other key is null |
| Validation.ResolvedPartiesHaveIds | api-pix-validator-wip-pix/src/main/java/com/validator/service/validators/TransactionValidator.java:139-141 | with a well-formed directory both resolved parties have ids, so listing is decided by the store alone |
| Validation.EntryKeyCollision | api-pix-validator-wip-pix/src/main/java/com/validator/service/validators/TransactionValidator.java:139-141 | with one blacklist entry stored under key 1 for another account, the first account created gets id 1, counts as listed, and its transfer fails as USER_IN_BLACKLIST |
| Validation.FreshPair | api-pix-validator-wip-pix/src/main/java/com/validator/service/validators/TransactionValidator.java:35-36 | two different keys resolved against an empty directory create accounts 1 and 2, carrying those keys |
| Validation.HarmlessScreenSucceeds | api-pix-validator-wip-pix/src/main/java/com/validator/service/validators/TransactionValidator.java:38-51 | a resolved transfer with ids, an in-range value, no history and harmless texts (a null key read as the empty string) is screened to SUCCESS against an empty blacklist, listing no one |
| Validation.HarmlessPassSucceeds | api-pix-validator-wip-pix/src/main/java/com/validator/service/validators/TransactionValidator.java:34-52 | a whole pass over an empty directory and blacklist on such a transfer between two different keys gives SUCCESS with no reason, two new accounts and no listing |
| Validation.TransactionValidator.AddUserToBlackList | api-pix-validator-wip-pix/src/main/java/com/validator/service/validators/TransactionValidator.java:143-145 | the account is stored as a new entry stamped with now |
| Validation.TransactionValidator.ValidateUserBlacklist | api-pix-validator-wip-pix/src/main/java/com/validator/service/validators/TransactionValidator.java:55-62 | FAILED / USER_IN_BLACKLIST exactly when the sender or the receiver is listed; otherwise unchanged |
| Validation.TransactionValidator.ValidateTransactionValue | api-pix-validator-wip-pix/src/main/java/com/validator/service/validators/TransactionValidator.java:64-73 | FAILED / STRANGE_VALUE and one blacklist entry for the receiver exactly when the value is above 10000.0 or below 0.5; otherwise nothing changes |
| Validation.TransactionValidator.ValidateHighFrequency | api-pix-validator-wip-pix/src/main/java/com/validator/service/validators/TransactionValidator.java:105-117 | FAILED / HIGH_FREQUENCY and one blacklist entry for the receiver exactly when five or more entries are recent; otherwise nothing changes |
| Validation.TransactionValidator.ValidateOutOfAverageValue | api-pix-validator-wip-pix/src/main/java/com/validator/service/validators/TransactionValidator.java:119-137 | FAILED / OUT_OF_AVERAGE_VALUE exactly when the value deviates from the mean of at least five entries; otherwise unchanged |
| Validation.TransactionValidator.ValidateDangerousDescription | api-pix-validator-wip-pix/src/main/java/com/validator/service/validators/TransactionValidator.java:75-83 | PENDING_REVIEW / SUSPICIOUS_DESCRIPTION exactly when the lower-cased description contains a dangerous term; otherwise unchanged |
| Validation.TransactionValidator.ValidateDangerousKeys | api-pix-validator-wip-pix/src/main/java/com/validator/service/validators/TransactionValidator.java:90-103 | PENDING_REVIEW / SUSPICIOUS_PIX_KEY exactly when a lower-cased key contains a dangerous term, a null key read as ""; otherwise unchanged |
| Validation.TransactionValidator.RunRules | api-pix-validator-wip-pix/src/main/java/com/validator/service/validators/TransactionValidator.java:38-51 | running the six rule methods with the status test after each leaves exactly the transfer and blacklist given by Screen; the blacklist's next id advances by one exactly when an entry was added |
| Validation.TransactionValidator.Validate | api-pix-validator-wip-pix/src/main/java/com/validator/service/validators/TransactionValidator.java:34-52 | the transfer, the directory and the blacklist after the pass are exactly those given by ValidateSpec; the blacklist's next id advances by one exactly when an entry was added |
| TransactionServices.ToEntity | api-pix-validator-wip-pix/src/main/java/com/validator/controller/requests/TransactionRequest.java:19-31 | the entity carries the request's parties as stubs, its value and description, and no id, status, reason or dates |
| Users.Stub | api-pix-validator-wip-pix/src/main/java/com/validator/controller/requests/UserRequest.java:16-23 | a request's party: the key and key type copied, with no id, tax id or name |
| TransactionServices.Review | api-pix-validator-wip-pix/src/main/java/com/validator/service/TransactionService.java:90-119 | a decision sets the verdict, clears the reason, stamps the update time and changes nothing else |
| TransactionServices.ReviewOverrides | api-pix-validator-wip-pix/src/main/java/com/validator/service/TransactionService.java:90-119 | a later decision replaces an earlier one entirely |
| TransactionServices.ReviewedResponse | api-pix-validator-wip-pix/src/main/java/com/validator/service/TransactionService.java:90-119 | the response to a decision names the verdict and has no fraud code or description |
| TransactionServices.CreatedResponse | api-pix-validator-wip-pix/src/main/java/com/validator/service/TransactionService.java:38-45 | a created transfer's response carries the new id, the request's value, description and keys, one of the three statuses, and a fraud code exactly when the status is not SUCCESS |
| TransactionServices.PlainTransferIsAccepted | api-pix-validator-wip-pix/src/main/java/com/validator/service/TransactionService.java:38-45 | the plain 50.0 lunch transfer from a CPF key to an e-mail key, validated against an empty directory and blacklist, gives SUCCESS with no reason, two new accounts and no listing |
| TransactionServices.TransactionService.Save | api-pix-validator-wip-pix/src/main/java/com/validator/service/TransactionService.java:38-45 | the transfer is classified by the validator first, then stored under a fresh id with both dates set to now, and the response is that stored transfer's |
| TransactionServices.TransactionService.Update | api-pix-validator-wip-pix/src/main/java/com/validator/service/TransactionService.java:47-66 | a missing id gives not-found and changes nothing; an existing id is replaced by the request's transfer, which keeps the id and creation time and is stamped with now; then the response fails on the unset status |
| TransactionServices.TransactionService.Delete | api-pix-validator-wip-pix/src/main/java/com/validator/service/TransactionService.java:68-78 | a missing id gives not-found and changes nothing; otherwise exactly that transfer is removed |
| TransactionServices.TransactionService.ApproveTransaction | api-pix-validator-wip-pix/src/main/java/com/validator/service/TransactionService.java:90-102 | a missing id gives not-found and changes nothing; otherwise the transfer becomes SUCCESS with no reason, stamped with now, and is returned |
| TransactionServices.TransactionService.RejectTransaction | api-pix-validator-wip-pix/src/main/java/com/validator/service/TransactionService.java:107-119 | a missing id gives not-found and changes nothing; otherwise the transfer becomes FAILED with no reason, stamped with now, and is returned |
| TransactionServices.TransactionService.Decide | api-pix-validator-wip-pix/src/main/java/com/validator/service/TransactionService.java:91-101 | the step approve and reject share: a missing id gives not-found and changes nothing; otherwise the transfer gets the verdict, loses its reason, is stamped with now, is saved over the stored row and returned |

## Left out

- Persistence: the JPA repositories, the entity manager and the queries are replaced by in-memory stores.
  - The user directory is a sequence with ids allocated in order.
  - The blacklist is a map from entry key to entry.
  - Transfers are a map from id to transfer.
- Validation.GetUser: looks up a blacklist entry by the entry's own key, as the repository does (BlackListRepositoryImpl.java:28). The model therefore promises nothing about finding an account by its user id after listing it.
- The receiver's history query: its ordering by creation date and its limit of fifteen are not modelled. The history is an input sequence of at most fifteen transfers.
- Floating point: `Double` values and their average are exact reals. Rounding is not modelled.
- The wall clock: each call to the current time is replaced by one `now` parameter per operation, in integer seconds.
- Lower-casing covers ASCII letters only. Unicode case mapping is not modelled.
- Null fields: a null description, a null value and a null key type are not modelled, so the exceptions they raise are not either. Parties are never null.
  - Validation.TransactionValidator.ValidateDangerousKeys: does not model the guard for a null transfer or a null party (TransactionValidator.java:86-88). It cannot be reached from a validation pass, which has already dereferenced both parties.
- Request id: a creation request carrying an id, and the repository's merge path for it, are not modelled. Every created transfer gets a fresh id.
- TransactionServices.TransactionService.Update: stores the replacement as the repository code writes it. It does not model the persistence provider possibly rejecting that replacement because its parties are unsaved accounts.
- Queries and mappers: `findAll`, `findById`, `findByStatus`, the HTTP controller, the request mappers other than `ToEntity`, and logging are not modelled.
- PixType.java and TransactionStatus.java are not part of this model. The four key types are the legal PIX key types; the code distinguishes only CPF from the others. The three statuses are the ones the code sets.
- Concurrency between simultaneous validations is not modelled.
