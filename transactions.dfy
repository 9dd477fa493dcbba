/** The transfer record, its classification status and its API response. */
module Transactions {
  import opened Wrappers
  import opened FraudReasons
  import opened Users

  /** The classification of a transfer; a transfer not yet classified has no status. */
  datatype Status = Success | Failed | PendingReview
  {
    /** The enum constant's name, as reported in responses and stored by the STRING column mapping. */
    function Name(): (n: string)
      ensures |n| > 0
    {
      match this
      case Success => "SUCCESS"
      case Failed => "FAILED"
      case PendingReview => "PENDING_REVIEW"
    }
  }

  /** Reads a status back from its name. */
  function StatusFromName(n: string): (r: Option<Status>)
    ensures r.Some? ==> r.value.Name() == n
    ensures r.None? ==> forall s: Status :: s.Name() != n
  {
    if n == "SUCCESS" then Some(Success)
    else if n == "FAILED" then Some(Failed)
    else if n == "PENDING_REVIEW" then Some(PendingReview)
    else None
  }

  /** A PIX transfer. Amounts are exact reals; timestamps are whole seconds. */
  datatype Transaction = Transaction(
    id: Option<nat>,
    sender: User,
    receiver: User,
    value: real,
    description: string,
    status: Option<Status>,
    fraudReason: Option<FraudReason>,
    createdDate: Option<int>,
    lastUpdatedDate: Option<int>)

  /** The transfer as returned by the API; the fraud fields are present only when a reason is set. */
  datatype TransactionResponse = TransactionResponse(
    id: Option<nat>,
    sender: UserResponse,
    receiver: UserResponse,
    value: real,
    description: string,
    status: string,
    fraudCode: Option<string>,
    fraudDescription: Option<string>)

  /** Maps a classified transfer to its response. The status is dereferenced, so it must be set. */
  function ToResponse(t: Transaction): (r: TransactionResponse)
    requires t.status.Some?
    ensures r.id == t.id && r.value == t.value && r.description == t.description
    ensures r.sender == t.sender.ToResponse() && r.receiver == t.receiver.ToResponse()
    ensures r.status == t.status.value.Name()
    ensures r.fraudCode.Some? <==> t.fraudReason.Some?
    ensures r.fraudDescription.Some? <==> t.fraudReason.Some?
    ensures t.fraudReason.Some? ==>
              r.fraudCode == Some(t.fraudReason.value.Code()) &&
              r.fraudDescription == Some(t.fraudReason.value.Description())
  {
    TransactionResponse(
      t.id,
      t.sender.ToResponse(),
      t.receiver.ToResponse(),
      t.value,
      t.description,
      t.status.value.Name(),
      if t.fraudReason.Some? then Some(t.fraudReason.value.Code()) else None,
      if t.fraudReason.Some? then Some(t.fraudReason.value.Description()) else None)
  }

  /** The response loses nothing of the classification: status and reason can be read back from it. */
  lemma ResponseDeterminesClassification(t: Transaction)
    requires t.status.Some?
    ensures StatusFromName(ToResponse(t).status) == t.status
    ensures (if ToResponse(t).fraudCode.Some? then FromCode(ToResponse(t).fraudCode.value) else None)
            == t.fraudReason
  {
    var s := t.status.value;
    assert StatusFromName(s.Name()) == Some(s) by {
      match s
      case Success =>
      case Failed =>
      case PendingReview =>
    }
    if t.fraudReason.Some? {
      CodeRoundTrip(t.fraudReason.value);
    }
  }
}
