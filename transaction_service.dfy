/** The transfer service: creation through the validator, update and deletion by id, and the
    analyst's approve and reject decisions, over a store of transfers keyed by their id. */
module TransactionServices {
  import opened Wrappers
  import opened FraudReasons
  import opened Users
  import opened Transactions
  import opened UserServices
  import opened Validation

  /** Why a service call ends without a response. */
  datatype ServiceError =
    | NotFound(id: nat)   // no transfer is stored under the id
    | NullStatus          // the response mapper met a transfer whose status is not set

  /** A party as a request names it. */
  datatype UserRequest = UserRequest(pixKey: Option<string>, pixKeyType: PixType)

  /** A transfer as a request describes it. */
  datatype TransactionRequest = TransactionRequest(sender: UserRequest, receiver: UserRequest, value: real, description: string)

  /** The entity built from a request: the parties are stubs and nothing is classified or dated. */
  function ToEntity(req: TransactionRequest): (t: Transaction)
    ensures t.id.None? && t.status.None? && t.fraudReason.None?
    ensures t.createdDate.None? && t.lastUpdatedDate.None?
    ensures t.sender == Stub(req.sender.pixKey, req.sender.pixKeyType)
    ensures t.receiver == Stub(req.receiver.pixKey, req.receiver.pixKeyType)
    ensures t.value == req.value && t.description == req.description
  {
    Transaction(None, Stub(req.sender.pixKey, req.sender.pixKeyType), Stub(req.receiver.pixKey, req.receiver.pixKeyType),
                req.value, req.description, None, None, None, None)
  }

  /** An analyst's decision on a stored transfer: the status is set, the reason cleared and the
      update time stamped. */
  function Review(tx: Transaction, verdict: Status, now: int): (r: Transaction)
    ensures r.status == Some(verdict) && r.fraudReason.None? && r.lastUpdatedDate == Some(now)
    ensures r.(status := tx.status, fraudReason := tx.fraudReason, lastUpdatedDate := tx.lastUpdatedDate) == tx
  {
    tx.(status := Some(verdict), fraudReason := None, lastUpdatedDate := Some(now))
  }

  /** A later decision replaces an earlier one entirely. */
  lemma ReviewOverrides(tx: Transaction, first: Status, second: Status, t1: int, t2: int)
    ensures Review(Review(tx, first, t1), second, t2) == Review(tx, second, t2)
  {
  }

  /** The response to a decision names the verdict and carries no fraud code or description. */
  lemma ReviewedResponse(tx: Transaction, verdict: Status, now: int)
    ensures var r := ToResponse(Review(tx, verdict, now));
            r.status == verdict.Name() && r.fraudCode.None? && r.fraudDescription.None? &&
            r.id == tx.id && r.value == tx.value && r.description == tx.description
  {
  }

  /** What a created transfer's response says: the new id, a status, and a fraud code exactly
      when the status is not SUCCESS. */
  lemma CreatedResponse(req: TransactionRequest, users: seq<User>, entries: map<nat, BlacklistEntry>, nextEntryId: nat,
                        recent: seq<Transaction>, now: int, id: nat)
    ensures var v := ValidateSpec(ToEntity(req), users, entries, nextEntryId, recent, now);
            var r := ToResponse(v.tx.(id := Some(id), createdDate := Some(now), lastUpdatedDate := Some(now)));
            r.id == Some(id) && r.value == req.value && r.description == req.description &&
            r.sender.pixKey == req.sender.pixKey && r.receiver.pixKey == req.receiver.pixKey &&
            r.status in {"SUCCESS", "FAILED", "PENDING_REVIEW"} &&
            (r.fraudCode.None? <==> r.status == "SUCCESS")
  {
    var v := ValidateSpec(ToEntity(req), users, entries, nextEntryId, recent, now);
    var s := v.tx.status.value;
    assert s.Name() == "SUCCESS" <==> s == Success;
  }

  /** A plain transfer ("lunch", 50.00, from the CPF key "111.111.111-11" to
      the e-mail key "bob@x.com"), validated against an empty directory and an empty blacklist,
      succeeds with no reason, creates both accounts and lists no one. */
  lemma PlainTransferIsAccepted(now: int)
    ensures var req := TransactionRequest(UserRequest(Some("111.111.111-11"), Cpf), UserRequest(Some("bob@x.com"), Email),
                                          50.0, "lunch");
            var v := ValidateSpec(ToEntity(req), [], map[], 1, [], now);
            v.tx.status == Some(Success) && v.tx.fraudReason.None? && v.entries == map[] && |v.users| == 2
  {
    var req := TransactionRequest(UserRequest(Some("111.111.111-11"), Cpf), UserRequest(Some("bob@x.com"), Email),
                                  50.0, "lunch");
    HarmlessPassSucceeds(ToEntity(req), now);
  }

  /** Every stored transfer carries its own key as id. */
  ghost predicate Keyed(store: map<nat, Transaction>, nextId: nat)
  {
    forall k :: k in store ==> k < nextId && store[k].id == Some(k)
  }

  class TransactionService {
    var store: map<nat, Transaction>
    var nextId: nat
    const validator: TransactionValidator

    ghost predicate Valid()
      reads this, validator, validator.userService, validator.blacklist
    {
      Keyed(store, nextId) && validator.Valid()
    }

    /** An empty store whose identity column starts at 1, so the first transfer saved gets id 1. */
    constructor (validator: TransactionValidator)
      requires validator.Valid()
      ensures Valid() && store == map[] && nextId == 1 && this.validator == validator
    {
      store := map[];
      nextId := 1;
      this.validator := validator;
    }

    /** Validates the request's transfer, stores it under a new id with both dates set to `now`,
        and responds with it. `recent` is what the store returns as the resolved receiver's last
        15 received transfers. */
    method Save(req: TransactionRequest, recent: seq<Transaction>, now: int) returns (r: TransactionResponse)
      requires Valid()
      requires |recent| <= 15
      modifies this, validator.userService, validator.blacklist
      ensures Valid()
      ensures var v := ValidateSpec(ToEntity(req), old(validator.userService.users), old(validator.blacklist.entries),
                                    old(validator.blacklist.nextId), recent, now);
              var saved := v.tx.(id := Some(old(nextId)), createdDate := Some(now), lastUpdatedDate := Some(now));
              old(nextId) !in old(store) && store == old(store)[old(nextId) := saved] && nextId == old(nextId) + 1 &&
              validator.userService.users == v.users && validator.blacklist.entries == v.entries &&
              saved.status.Some? && r == ToResponse(saved)
    {
      var tx := validator.Validate(ToEntity(req), recent, now);
      var saved := tx.(id := Some(nextId), createdDate := Some(now), lastUpdatedDate := Some(now));
      store := store[nextId := saved];
      nextId := nextId + 1;
      r := ToResponse(saved);
    }

    /** Replaces a stored transfer by the request's, keeping its id and creation time and stamping
        the update time; the replacement has no status, so building the response fails. */
    method Update(id: nat, req: TransactionRequest, now: int) returns (r: Result<TransactionResponse, ServiceError>)
      requires Valid()
      modifies this
      ensures Valid() && nextId == old(nextId)
      ensures id !in old(store) ==> r == Err(NotFound(id)) && store == old(store)
      ensures id in old(store) ==>
                r == Err(NullStatus) &&
                store == old(store)[id := ToEntity(req).(id := Some(id), createdDate := old(store)[id].createdDate,
                                                         lastUpdatedDate := Some(now))]
    {
      if id !in store {
        return Err(NotFound(id));
      }
      var existing := store[id];
      var updated := ToEntity(req).(id := existing.id);
      updated := updated.(createdDate := existing.createdDate, lastUpdatedDate := Some(now));
      store := store[id := updated];
      assert updated.status.None?;
      r := Err(NullStatus);
    }

    /** Removes a stored transfer. */
    method Delete(id: nat) returns (r: Outcome<ServiceError>)
      requires Valid()
      modifies this
      ensures Valid() && nextId == old(nextId)
      ensures id !in old(store) ==> r == Fail(NotFound(id)) && store == old(store)
      ensures id in old(store) ==> r == Pass && store == old(store) - {id}
      ensures id !in store
    {
      if id !in store {
        return Fail(NotFound(id));
      }
      store := store - {id};
      r := Pass;
    }

    /** The analyst approves a transfer: SUCCESS, no reason. */
    method ApproveTransaction(id: nat, now: int) returns (r: Result<TransactionResponse, ServiceError>)
      requires Valid()
      modifies this
      ensures Valid() && nextId == old(nextId)
      ensures id !in old(store) ==> r == Err(NotFound(id)) && store == old(store)
      ensures id in old(store) ==>
                store == old(store)[id := Review(old(store)[id], Success, now)] &&
                r == Ok(ToResponse(Review(old(store)[id], Success, now)))
    {
      r := Decide(id, Success, now);
    }

    /** The analyst rejects a transfer: FAILED, and the reason is cleared as well. */
    method RejectTransaction(id: nat, now: int) returns (r: Result<TransactionResponse, ServiceError>)
      requires Valid()
      modifies this
      ensures Valid() && nextId == old(nextId)
      ensures id !in old(store) ==> r == Err(NotFound(id)) && store == old(store)
      ensures id in old(store) ==>
                store == old(store)[id := Review(old(store)[id], Failed, now)] &&
                r == Ok(ToResponse(Review(old(store)[id], Failed, now)))
    {
      r := Decide(id, Failed, now);
    }

    /** The step both decisions share: look up, set the verdict, save by merge, respond. */
    method Decide(id: nat, verdict: Status, now: int) returns (r: Result<TransactionResponse, ServiceError>)
      requires Valid()
      modifies this
      ensures Valid() && nextId == old(nextId)
      ensures id !in old(store) ==> r == Err(NotFound(id)) && store == old(store)
      ensures id in old(store) ==>
                store == old(store)[id := Review(old(store)[id], verdict, now)] &&
                r == Ok(ToResponse(Review(old(store)[id], verdict, now)))
    {
      if id !in store {
        return Err(NotFound(id));
      }
      var tx := Review(store[id], verdict, now);
      // the transfer has an id, so the repository merges it over the stored row
      store := store[id := tx];
      r := Ok(ToResponse(tx));
    }
  }
}
