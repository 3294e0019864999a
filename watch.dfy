/** `get_watched_services_status`: one status record per entry of the watch
    list, in watch-list order. `probe(n)` is what the status subprocess of
    `get_service_status(n)` does during this call. */
module Watch {
  import opened Outcomes
  import opened Text
  import opened Json
  import opened Services

  /** The record for one watched name: what `get_service_status` returned
      or, when it raised, the fallback that carries the exception text. */
  function WatchedRecord(os: string, name: Json, run: Proc): (r: StatusRecord)
    ensures r.name == name
    ensures r.Unavailable? <==> !Supported(os) || run.ProcRaised?
    ensures r.Unavailable? ==> Raises(r.error) == ServiceStatus(os, name, run)
    ensures r.Probed? ==> Returns(r) == ServiceStatus(os, name, run)
  {
    match ServiceStatus(os, name, run)
    case Returns(p) => p
    case Raises(m) => Unavailable(name, m)
  }

  /** The list `get_watched_services_status` builds for `names`, one append
      per name: one record per name. */
  function WatchedRecords(os: string, names: seq<Json>, probe: Json -> Proc): (r: seq<StatusRecord>)
    ensures |r| == |names|
  {
    if names == [] then []
    else WatchedRecords(os, names[..|names| - 1], probe) + [WatchedRecord(os, Last(names), probe(Last(names)))]
  }

  /** Record `i` is the one for `names[i]`. */
  lemma {:induction false} WatchedRecordsAt(os: string, names: seq<Json>, probe: Json -> Proc)
    ensures forall i :: 0 <= i < |names| ==>
              WatchedRecords(os, names, probe)[i] == WatchedRecord(os, names[i], probe(names[i]))
  {
    if names != [] {
      var init := names[..|names| - 1];
      WatchedRecordsAt(os, init, probe);
      assert forall i :: 0 <= i < |init| ==> init[i] == names[i];
    }
  }

  /** `get_watched_services_status()` with the watch list `watch`. Walking
      a value that is not iterable raises outside the per-name `try`. */
  function WatchedStatus(os: string, watch: Json, probe: Json -> Proc): (r: Call<seq<StatusRecord>>)
    ensures r.Raises? <==> !Iterable(watch)
    ensures r.Raises? ==> r.message == NotIterable(watch)
    ensures r.Returns? ==> r.value == WatchedRecords(os, Members(watch).value, probe)
  {
    match Members(watch)
    case Raises(m) => Raises(m)
    case Returns(names) => Returns(WatchedRecords(os, names, probe))
  }

  /** A watch list given as a list of names is reported name by name: one
      record per name, carrying that name, in list order. */
  lemma WatchedNames(os: string, names: seq<Json>, probe: Json -> Proc)
    ensures var r := WatchedStatus(os, JArr(names), probe);
            r.Returns? && |r.value| == |names|
            && forall i :: 0 <= i < |names| ==> r.value[i].name == names[i]
  {
    WatchedRecordsAt(os, names, probe);
  }

  /** On an unsupported OS every watched name is reported unavailable with
      the platform gate's message. */
  lemma UnsupportedAllUnavailable(os: string, names: seq<Json>, probe: Json -> Proc)
    requires !Supported(os)
    ensures forall i :: 0 <= i < |names| ==>
              WatchedRecords(os, names, probe)[i] == Unavailable(names[i], os + " is not supported yet.")
  {
    WatchedRecordsAt(os, names, probe);
  }

  /** The loop of `get_watched_services_status` over the names. */
  method WatchedServicesStatus(os: string, names: seq<Json>, probe: Json -> Proc)
    returns (s: seq<StatusRecord>)
    ensures s == WatchedRecords(os, names, probe)
  {
    s := [];
    for i := 0 to |names|
      invariant s == WatchedRecords(os, names[..i], probe)
    {
      var status := ServiceStatus(os, names[i], probe(names[i]));
      match status {
        case Returns(record) =>
          s := s + [record];
        case Raises(e) =>
          s := s + [Unavailable(names[i], e)];
      }
      TakeInit(names, i + 1);
    }
    assert names[..|names|] == names;
  }
}
