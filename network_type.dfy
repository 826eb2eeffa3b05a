/** The application's own enumeration of radio generations and its integer codes. */
module NetworkTypes {

  /** Seven radio generations; each carries the integer code given by Value(). */
  datatype NetworkType = Unknown | Cdma | Gsm | Wcdma | Lte | Nr | Tdscdma {

    /** The code the enum constructor assigns to this variant. */
    function Value(): (v: int)
      ensures 0 <= v <= 6
      ensures v == 0 <==> this == Unknown
    {
      match this
      case Unknown => 0
      case Cdma => 1
      case Gsm => 2
      case Wcdma => 3
      case Lte => 4
      case Nr => 5
      case Tdscdma => 6
    }
  }

  /** Decodes a code. Total: a code outside 0..6 decodes to Unknown. */
  function FromValue(value: int): (t: NetworkType)
    ensures 0 <= value <= 6 ==> t.Value() == value
    ensures (value < 0 || 6 < value) ==> t == Unknown
  {
    match value
    case 1 => Cdma
    case 2 => Gsm
    case 3 => Wcdma
    case 4 => Lte
    case 5 => Nr
    case 6 => Tdscdma
    case 0 => Unknown
    case _ => Unknown
  }

  /** Distinct variants have distinct codes. */
  lemma ValueInjective(a: NetworkType, b: NetworkType)
    ensures a.Value() == b.Value() <==> a == b
  {
  }

  /** Decoding the code of a variant gives back that variant. */
  lemma FromValueRoundTrip(t: NetworkType)
    ensures FromValue(t.Value()) == t
  {
  }

  /** Exactly the codes 0 and those outside 0..6 decode to Unknown. */
  lemma FromValueUnknownIff(value: int)
    ensures FromValue(value) == Unknown <==> value == 0 || value < 0 || 6 < value
  {
  }
}
