/**
 * The port PFC-counter handler of the virtual database client
 * (virtual_database_client/handler_pfc_counter.go): a request for
 * Interfaces/Port[name=<port>]/PfcCounter reads the PFC receive and send
 * packet counters of each port it names.  Its pop is the port-level pop of
 * the base-counter handler with the PFC patterns.
 */
module VdbHandlerPfcCounter {
  import opened Wrappers
  import opened Gnmi
  import opened VdbTypes
  import opened VdbMapInit
  import VdbHandlerPfcwd
  import opened VdbHandlerPortCounter

  /** GetTmpl_PortPfcCounterStats: Interfaces/Port[name=*]/PfcCounter. */
  function PfcCounterTemplate(): (t: Path)
    ensures |t.elem| == 3 && KeyOf(t.elem[1], "name") == "*"
  {
    Path("", "", [PathElem("Interfaces", map[]), PathElem("Port", map["name" := "*"]), PathElem("PfcCounter", map[])])
  }

  const PfcCounterLeaf: VdbHandlerPfcwd.LeafConfig := VdbHandlerPfcwd.LeafConfig(2, "PfcCounter")
  const PfcCounterPatterns: seq<string> := ["SAI_PORT_STAT_PFC_._RX_PKTS$", "SAI_PORT_STAT_PFC_._TX_PKTS$"]

  /** v2rPortPfcCounterStats: fill the template's port from the request, then pop it with the PFC patterns. */
  method V2rPortPfcCounterStats(maps: CounterMaps, path: Path, g2s: seq<Entry>) returns (st: Status, g2s': seq<Entry>)
    ensures PopOutcome(maps, VdbHandlerPfcwd.UpdatedTemplate(path, PfcCounterTemplate(), PortParents),
                       VdbHandlerPfcwd.TargetFields(path, PfcCounterLeaf.name, []), PfcCounterPatterns, st, g2s, g2s')
  {
    var tmpl := PfcCounterTemplate();
    var request, fields := VdbHandlerPfcwd.UpdatePath(path, tmpl, PortParents, PfcCounterLeaf, []);
    st, g2s' := PopPortCounterStats(maps, request, fields, PfcCounterPatterns, g2s);
  }
}
