/** The fixed catalogue of fraud reasons (each with a machine code and a human description). */
module FraudReasons {
  import opened Wrappers

  datatype FraudReason =
    | StrangeValue
    | SuspiciousPixKey
    | HighFrequency
    | OutOfAverageValue
    | SuspiciousDescription
    | UserInBlacklist
  {
    /** The identifier of the enum constant, i.e. what Java's `name()` returns
        and what a STRING-mapped column stores. */
    function Name(): string
    {
      match this
      case StrangeValue => "STRANGE_VALUE"
      case SuspiciousPixKey => "SUSPICIOUS_PIX_KEY"
      case HighFrequency => "HIGH_FREQUENCY"
      case OutOfAverageValue => "OUT_OF_AVERAGE_VALUE"
      case SuspiciousDescription => "SUSPICIOUS_DESCRIPTION"
      case UserInBlacklist => "USER_IN_BLACKLIST"
    }

    /** The code given to the constant's constructor; it coincides with the constant's name. */
    function Code(): (c: string)
      ensures c == Name()
      ensures |c| > 0
    {
      match this
      case StrangeValue => "STRANGE_VALUE"
      case SuspiciousPixKey => "SUSPICIOUS_PIX_KEY"
      case HighFrequency => "HIGH_FREQUENCY"
      case OutOfAverageValue => "OUT_OF_AVERAGE_VALUE"
      case SuspiciousDescription => "SUSPICIOUS_DESCRIPTION"
      case UserInBlacklist => "USER_IN_BLACKLIST"
    }

    /** The description given to the constant's constructor. */
    function Description(): (d: string)
      ensures |d| > 0
    {
      match this
      case StrangeValue => "Valor da transação é atípico ou muito alto"
      case SuspiciousPixKey => "Chave PIX contém palavra suspeita"
      case HighFrequency => "Muitas transações em um curto período de tempo (5 min)"
      case OutOfAverageValue => "Valor fora da média das últimas 5 transações"
      case SuspiciousDescription => "Descrição contém termos suspeitos ou proibidos"
      case UserInBlacklist => "Remetente ou destinatário presente em blacklist"
    }
  }

  /** The constants in declaration order. */
  const AllReasons: seq<FraudReason> :=
    [StrangeValue, SuspiciousPixKey, HighFrequency, OutOfAverageValue, SuspiciousDescription, UserInBlacklist]

  /** The catalogue has exactly six reasons, each listed once, and every reason is listed. */
  lemma CatalogueIsComplete(r: FraudReason)
    ensures |AllReasons| == 6
    ensures r in AllReasons
    ensures forall i, j :: 0 <= i < j < |AllReasons| ==> AllReasons[i] != AllReasons[j]
  {
  }

  /** Looks a reason up by its code (the inverse of `Code`, as used when a STRING-mapped column is read back). */
  function FromCode(c: string): (r: Option<FraudReason>)
    ensures r.Some? ==> r.value.Code() == c
    ensures r.None? ==> forall x: FraudReason :: x.Code() != c
  {
    if c == "STRANGE_VALUE" then Some(StrangeValue)
    else if c == "SUSPICIOUS_PIX_KEY" then Some(SuspiciousPixKey)
    else if c == "HIGH_FREQUENCY" then Some(HighFrequency)
    else if c == "OUT_OF_AVERAGE_VALUE" then Some(OutOfAverageValue)
    else if c == "SUSPICIOUS_DESCRIPTION" then Some(SuspiciousDescription)
    else if c == "USER_IN_BLACKLIST" then Some(UserInBlacklist)
    else None
  }

  /** Reading a code back yields the reason it came from. */
  lemma CodeRoundTrip(r: FraudReason)
    ensures FromCode(r.Code()) == Some(r)
  {
  }

  /** No two reasons share a code. */
  lemma CodesAreDistinct(r1: FraudReason, r2: FraudReason)
    ensures r1.Code() == r2.Code() <==> r1 == r2
  {
    CodeRoundTrip(r1);
    CodeRoundTrip(r2);
  }
}
