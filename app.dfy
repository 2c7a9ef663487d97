/** The service's cycle-time bookkeeping (asrs_lib/app.py, AsrsServiceApp and
    its on_cycle_done callback): the mover reports every finished PUT or PICK
    cycle, and the last duration of each kind is kept for the status API. */
module App {
  import opened Wrappers
  import opened Text

  /** The dict handed to on_cycle_done: kind, basket, seconds and success;
      a key that is missing reads as None. */
  datatype CycleInfo = CycleInfo(kind: Option<string>, basket: Option<string>, seconds: Option<real>, success: bool)

  /** The last duration of each kind; both start as None. */
  type Times = map<string, Option<real>>

  /** (info.get("kind") or "").lower(): a missing kind becomes "". */
  function KindOf(info: CycleInfo): (k: string)
    ensures info.kind.None? ==> k == ""
    ensures info.kind.Some? ==> SameIgnoringCase(k, info.kind.value) && NoUpper(k)
  {
    if info.kind.None? then "" else Lower(info.kind.value)
  }

  /** Only "put" and "pick" are tracked. */
  predicate Tracked(kind: string) {
    kind == "put" || kind == "pick"
  }

  /** last_times after one report: the entry of the report's kind takes the
      reported seconds when the kind is tracked and the seconds are known;
      every other entry is left alone. */
  function RecordCycle(times: Times, info: CycleInfo): (r: Times)
    ensures Tracked(KindOf(info)) && info.seconds.Some? ==> KindOf(info) in r && r[KindOf(info)] == info.seconds
    ensures forall k | k != KindOf(info) :: (k in r <==> k in times) && (k in r ==> r[k] == times[k])
    ensures !(Tracked(KindOf(info)) && info.seconds.Some?) ==> r == times
  {
    var kind := KindOf(info);
    if Tracked(kind) && info.seconds.Some? then times[kind := info.seconds] else times
  }

  /** The initial last_times. */
  const InitialTimes: Times := map["put" := None, "pick" := None]

  /** Two reports of different kinds commute: each entry only ever depends
      on the reports of its own kind. */
  lemma RecordCommutes(times: Times, a: CycleInfo, b: CycleInfo)
    requires KindOf(a) != KindOf(b)
    ensures RecordCycle(RecordCycle(times, a), b) == RecordCycle(RecordCycle(times, b), a)
  {
    var ab, ba := RecordCycle(RecordCycle(times, a), b), RecordCycle(RecordCycle(times, b), a);
    forall k
      ensures (k in ab <==> k in ba) && (k in ab ==> ab[k] == ba[k])
    {
    }
  }

  /** Starting from the initial table, the keys stay exactly "put" and
      "pick" whatever is reported. */
  lemma {:induction false} RecordKeepsKeys(infos: seq<CycleInfo>)
    ensures Replay(InitialTimes, infos).Keys == {"put", "pick"}
  {
    if infos != [] {
      RecordKeepsKeys(infos[..|infos| - 1]);
    }
  }

  /** The table after a series of reports, oldest first. */
  function Replay(times: Times, infos: seq<CycleInfo>): Times {
    if infos == [] then times else RecordCycle(Replay(times, infos[..|infos| - 1]), infos[|infos| - 1])
  }

  /** A report spelled in capitals is filed under the lower-case kind. */
  lemma UpperCaseKind(secs: real)
    ensures KindOf(CycleInfo(Some("PUT"), None, Some(secs), true)) == "put"
    ensures RecordCycle(InitialTimes, CycleInfo(Some("PICK"), None, Some(secs), false))
         == map["put" := None, "pick" := Some(secs)]
  {
    assert Lower("PUT") == "put";
    assert Lower("PICK") == "pick";
  }

  class ServiceApp {
    var lastTimes: Times

    constructor ()
      ensures lastTimes == InitialTimes
    {
      lastTimes := InitialTimes;
    }

    /** _on_cycle_done. The diagnostic log line is left out: a failure while
        printing it is swallowed and has no effect on the state. */
    method OnCycleDone(info: CycleInfo)
      modifies this`lastTimes
      ensures lastTimes == RecordCycle(old(lastTimes), info)
    {
      var kind := KindOf(info);
      if Tracked(kind) && info.seconds.Some? {
        lastTimes := lastTimes[kind := info.seconds];
      }
    }
  }
}
