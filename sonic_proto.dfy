/** The SONiC target table and the Value message of proto/sonic.pb.go. */
module SonicProto {
  import opened Wrappers
  import opened Gnmi

  /** sonic.Value: what the data clients queue for the server to send. */
  datatype Value = Value(prefix: Option<Path>, path: Option<Path>, timestamp: int, val: Option<TypedValue>,
                         syncResponse: bool, fatal: string)

  const APPL_DB: int := 0
  const ASIC_DB: int := 1
  const COUNTERS_DB: int := 2
  const LOGLEVEL_DB: int := 3
  const CONFIG_DB: int := 4
  const PFC_WD_DB: int := 5
  const FLEX_COUNTER_DB: int := 5
  const STATE_DB: int := 6
  const OTHERS: int := 100

  /** Target_name: number to name; 5 names PFC_WD_DB, FLEX_COUNTER_DB shares it. */
  const TargetName: map<int, string> := map[
    0 := "APPL_DB", 1 := "ASIC_DB", 2 := "COUNTERS_DB", 3 := "LOGLEVEL_DB",
    4 := "CONFIG_DB", 5 := "PFC_WD_DB", 6 := "STATE_DB", 100 := "OTHERS"]

  /** Target_value: name to number. */
  const TargetValue: map<string, int> := map[
    "APPL_DB" := 0, "ASIC_DB" := 1, "COUNTERS_DB" := 2, "LOGLEVEL_DB" := 3,
    "CONFIG_DB" := 4, "PFC_WD_DB" := 5, "FLEX_COUNTER_DB" := 5, "STATE_DB" := 6,
    "OTHERS" := 100]

  const TargetNames: set<string> := {
    "APPL_DB", "ASIC_DB", "COUNTERS_DB", "LOGLEVEL_DB", "CONFIG_DB",
    "PFC_WD_DB", "FLEX_COUNTER_DB", "STATE_DB", "OTHERS"}

  /** Target_value holds the nine names; Target_name exactly eight numbers. */
  lemma TableSizes()
    ensures TargetValue.Keys == TargetNames
    ensures TargetName.Keys == {0, 1, 2, 3, 4, 5, 6, 100}
  {
  }

  /** Target_name inverts Target_value; only FLEX_COUNTER_DB is not named back. */
  lemma NameInvertsValue()
    ensures forall v :: v in TargetName ==> TargetName[v] in TargetValue && TargetValue[TargetName[v]] == v
    ensures forall s :: s in TargetValue ==> TargetValue[s] in TargetName
    ensures forall s :: s in TargetValue && TargetName[TargetValue[s]] != s ==> s == "FLEX_COUNTER_DB"
    ensures TargetName[TargetValue["FLEX_COUNTER_DB"]] == "PFC_WD_DB"
  {
  }

  /** OTHERS is the one target that is not a database number below 100. */
  lemma OthersIsTheOnlyNonDatabase()
    ensures forall s :: s in TargetValue ==> (TargetValue[s] >= 100 <==> s == "OTHERS")
    ensures TargetValue["CONFIG_DB"] == CONFIG_DB && TargetValue["STATE_DB"] == STATE_DB
  {
  }
}
