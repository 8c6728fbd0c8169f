/**
 The server's registry of devices: the latest status per device id.
 */
module StatusStore {
  import opened Text
  import opened StatusCodec

  class DeviceStatusStore {
    var statusesById: map<string, DeviceStatus>

    constructor ()
      ensures statusesById == map[]
    {
      statusesById := map[];
    }

    method Upsert(status: DeviceStatus)
      modifies this
      ensures statusesById == old(statusesById)[status.deviceId := status]
    {
      statusesById := statusesById[status.deviceId := status];
    }

    method Find(deviceId: string) returns (found: Option<DeviceStatus>)
      ensures found.None? <==> deviceId !in statusesById
      ensures found.Some? ==> statusesById[deviceId] == found.value
    {
      if deviceId in statusesById {
        found := Some(statusesById[deviceId]);
      } else {
        found := None;
      }
    }

    function Size(): nat
      reads this
    {
      |statusesById|
    }
  }

  /** The registry after a sequence of upserts. */
  function LastById(statuses: seq<DeviceStatus>): map<string, DeviceStatus> {
    if statuses == [] then map[]
    else
      var last := statuses[|statuses| - 1];
      LastById(statuses[..|statuses| - 1])[last.deviceId := last]
  }

  lemma LastByIdSnoc(statuses: seq<DeviceStatus>, status: DeviceStatus)
    ensures LastById(statuses + [status]) == LastById(statuses)[status.deviceId := status]
  {
    assert (statuses + [status])[..|statuses|] == statuses;
  }

  /** The registry holds, for exactly the ids reported, the status reported last. */
  lemma {:induction false} RegistryHoldsTheLatest(statuses: seq<DeviceStatus>, id: string)
    ensures id in LastById(statuses) <==> exists i :: 0 <= i < |statuses| && statuses[i].deviceId == id
    ensures id in LastById(statuses) ==>
      exists i :: 0 <= i < |statuses| && statuses[i] == LastById(statuses)[id] && statuses[i].deviceId == id
        && forall j :: i < j < |statuses| ==> statuses[j].deviceId != id
  {
    if statuses != [] {
      var n := |statuses| - 1;
      var front := statuses[..n];
      RegistryHoldsTheLatest(front, id);
      if statuses[n].deviceId != id && id in LastById(front) {
        var i :| 0 <= i < |front| && front[i] == LastById(front)[id] && front[i].deviceId == id
          && forall j :: i < j < |front| ==> front[j].deviceId != id;
        assert statuses[i] == LastById(statuses)[id];
      }
    }
  }

  /** A later batch of reports overrides the registry of the earlier ones. */
  lemma {:induction false} LastByIdAppend(a: seq<DeviceStatus>, b: seq<DeviceStatus>)
    ensures LastById(a + b) == LastById(a) + LastById(b)
  {
    if b == [] {
      assert a + b == a;
    } else {
      var n := |b| - 1;
      LastByIdAppend(a, b[..n]);
      assert (a + b)[..|a + b| - 1] == a + b[..n];
    }
  }

  /** At most one entry per report. */
  lemma {:induction false} RegistryIsSmall(statuses: seq<DeviceStatus>)
    ensures |LastById(statuses)| <= |statuses|
  {
    if statuses != [] {
      var n := |statuses| - 1;
      RegistryIsSmall(statuses[..n]);
      var before, last := LastById(statuses[..n]), statuses[n];
      assert before[last.deviceId := last].Keys == before.Keys + {last.deviceId};
    }
  }
}
