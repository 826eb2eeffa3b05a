/** Names of the radio-network node that serves each kind of network, looked up by type or by label. */
module NodeNamer {

  /** The scanning library's network-type classes: the five the typed table lists and the two it does not. */
  datatype RadioNetworkType = Unknown | Cdma | Gsm | Wcdma | Lte | Nr | Tdscdma

  /** The name returned for anything either table does not list. */
  const DefaultName: string := "Unknown"

  /** Every name either lookup can return. */
  const NodeLabels: set<string> := {"Cell", "NB", "eNB", "gNB", "Unknown"}

  /** The typed table: network-type class to node name. */
  const NetworkTypes: map<RadioNetworkType, string> :=
    map[Gsm := "Cell", Wcdma := "NB", Lte := "eNB", Nr := "gNB", Unknown := "Unknown"]

  /** The label table, keyed by upper-case network labels. */
  const NodeNames: map<string, string> :=
    map["GSM" := "Cell", "UMTS" := "NB", "LTE" := "eNB", "NR" := "gNB", "5G" := "gNB", "NR SA" := "gNB"]

  /** The node name for a network type; a type the table does not list gets DefaultName. */
  function NodeName(networkType: RadioNetworkType): (name: string)
    ensures name in NodeLabels
    ensures networkType !in NetworkTypes ==> name == DefaultName
  {
    if networkType in NetworkTypes then NetworkTypes[networkType] else DefaultName
  }

  /** Upper-casing of one character, restricted to the ASCII letters. */
  function UpperChar(c: char): (u: char)
    ensures !('a' <= u <= 'z')
    ensures ('A' <= u <= 'Z') <==> ('A' <= c <= 'Z' || 'a' <= c <= 'z')
    ensures !('a' <= c <= 'z') ==> u == c
    ensures 'a' <= c <= 'z' ==> u as int - 'A' as int == c as int - 'a' as int
  {
    if 'a' <= c <= 'z' then (c as int - 'a' as int + 'A' as int) as char else c
  }

  /** Upper-casing of a label, character by character. */
  function Upper(s: string): (u: string)
    ensures |u| == |s|
    ensures forall i :: 0 <= i < |s| ==> u[i] == UpperChar(s[i])
    ensures forall i :: 0 <= i < |u| ==> !('a' <= u[i] <= 'z')
  {
    if s == [] then [] else [UpperChar(s[0])] + Upper(s[1..])
  }

  /** A label that is already upper case is left as it is. */
  lemma UpperOfUpper(s: string)
    requires forall i :: 0 <= i < |s| ==> !('a' <= s[i] <= 'z')
    ensures Upper(s) == s
  {
  }

  /** Upper-casing twice is upper-casing once. */
  lemma UpperIdempotent(s: string)
    ensures Upper(Upper(s)) == Upper(s)
  {
    UpperOfUpper(Upper(s));
  }

  /** The node name for a free-form label, looked up after upper-casing; an unlisted label gets DefaultName. */
  function NodeNameOfLabel(networkType: string): (name: string)
    ensures name in NodeLabels
    ensures Upper(networkType) !in NodeNames ==> name == DefaultName
  {
    var key := Upper(networkType);
    if key in NodeNames then NodeNames[key] else DefaultName
  }

  /** The label lookup ignores case. */
  lemma NodeNameOfLabelIgnoresCase(networkType: string)
    ensures NodeNameOfLabel(networkType) == NodeNameOfLabel(Upper(networkType))
  {
    UpperIdempotent(networkType);
  }

  /** Two labels that differ only in the case of their letters get the same node name. */
  lemma NodeNameOfLabelCaseBlind(s: string, t: string)
    requires |s| == |t| && forall i :: 0 <= i < |s| ==> UpperChar(s[i]) == UpperChar(t[i])
    ensures NodeNameOfLabel(s) == NodeNameOfLabel(t)
  {
    assert Upper(s) == Upper(t);
  }

  /** Each node name comes from exactly the labels the table lists for it. */
  lemma NodeNameOfLabelInverse(networkType: string)
    ensures NodeNameOfLabel(networkType) == "Cell" <==> Upper(networkType) == "GSM"
    ensures NodeNameOfLabel(networkType) == "NB" <==> Upper(networkType) == "UMTS"
    ensures NodeNameOfLabel(networkType) == "eNB" <==> Upper(networkType) == "LTE"
    ensures NodeNameOfLabel(networkType) == "gNB" <==> Upper(networkType) in {"NR", "5G", "NR SA"}
    ensures NodeNameOfLabel(networkType) == DefaultName <==> Upper(networkType) !in NodeNames
  {
  }

  /** The typed table on every network type; CDMA and TD-SCDMA are not listed. */
  lemma NodeNameTable()
    ensures NodeName(Gsm) == "Cell" && NodeName(Wcdma) == "NB" && NodeName(Lte) == "eNB"
    ensures NodeName(Nr) == "gNB" && NodeName(Unknown) == DefaultName
    ensures NodeName(Cdma) == DefaultName && NodeName(Tdscdma) == DefaultName
  {
  }

  /** "lte", "Lte" and "LTE" all name an eNB. */
  lemma NodeNameOfLteSpellings()
    ensures NodeNameOfLabel("lte") == "eNB" && NodeNameOfLabel("Lte") == "eNB" && NodeNameOfLabel("LTE") == "eNB"
  {
    assert Upper("lte") == "LTE";
    assert Upper("Lte") == "LTE";
    assert Upper("LTE") == "LTE";
  }

  /** Lower-case "gsm" and "umts" resolve as their upper-case forms. */
  lemma NodeNameOfLowerCaseLabels()
    ensures NodeNameOfLabel("gsm") == "Cell" && NodeNameOfLabel("umts") == "NB"
  {
    assert Upper("gsm") == "GSM";
    assert Upper("umts") == "UMTS";
  }

  /** Every spelling of the three NR labels names a gNB. */
  lemma NodeNameOfNrLabels()
    ensures NodeNameOfLabel("nr") == "gNB" && NodeNameOfLabel("5g") == "gNB" && NodeNameOfLabel("Nr Sa") == "gNB"
  {
    assert Upper("nr") == "NR";
    assert Upper("5g") == "5G";
    assert Upper("Nr Sa") == "NR SA";
  }

  /** "WCDMA" is not a label the table lists, and neither is the empty label. */
  lemma NodeNameOfUnlistedLabels()
    ensures NodeNameOfLabel("WCDMA") == DefaultName && NodeNameOfLabel("wcdma") == DefaultName
    ensures NodeNameOfLabel("") == DefaultName
  {
    assert Upper("WCDMA") == "WCDMA";
    assert Upper("wcdma") == "WCDMA";
  }

  /** Every name the typed table gives, other than the default, is also given to some label. */
  lemma TypedNamesHaveLabels(t: RadioNetworkType)
    ensures NodeName(t) != DefaultName ==> exists key :: key in NodeNames && NodeNames[key] == NodeName(t)
  {
    match t
    case Gsm => assert NodeNames["GSM"] == NodeName(t);
    case Wcdma => assert NodeNames["UMTS"] == NodeName(t);
    case Lte => assert NodeNames["LTE"] == NodeName(t);
    case Nr => assert NodeNames["NR"] == NodeName(t);
    case _ =>
  }

  /** Every name the networkType table gives is also given to some network type. */
  lemma LabelNamesHaveTypes(networkType: string)
    requires networkType in NodeNames
    ensures exists t :: t in NetworkTypes && NetworkTypes[t] == NodeNames[networkType]
  {
    if NodeNames[networkType] == "Cell" {
      assert NetworkTypes[Gsm] == "Cell";
    } else if NodeNames[networkType] == "NB" {
      assert NetworkTypes[Wcdma] == "NB";
    } else if NodeNames[networkType] == "eNB" {
      assert NetworkTypes[Lte] == "eNB";
    } else {
      assert NetworkTypes[Nr] == "gNB";
    }
  }
}
