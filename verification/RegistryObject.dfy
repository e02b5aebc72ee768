/** The registry object, with its methods run one at a time. */
module RegistryObject {
  import opened Options
  import opened RegistrySections

  /** The texts that the registry itself uses, the empty one, and any other. */
  datatype ReasonText = Empty | Unknown | Duplicate | DeviceLimitReached | Other(code: nat)

  datatype CloseReason = CloseReason(err: bool, text: ReasonText)

  function Stored(reason: CloseReason): CloseReason {
    if reason.text.Empty? then reason.(text := Unknown) else reason
  }

  /** What a predicate on devices can see of one: its id and how often it was a duplicate. */
  datatype Info = Info(id: Id, duplications: nat)

  class Device {
    const id: Id
    var open: bool
    var shutdowns: nat
    var duplications: nat
    var closeReason: Option<CloseReason>

    /** Open, and its shutdown channel not closed. */
    predicate Fresh() reads this {
      open && shutdowns == 0
    }

    function Visible(): Info reads this {
      Info(id, duplications)
    }

    constructor (id: Id)
      ensures this.id == id && Fresh() && duplications == 0 && closeReason == None
    {
      this.id, open, shutdowns, duplications, closeReason := id, true, 0, 0, None;
    }

    /** The first call closes the device and records its reason; later calls change nothing. */
    method RequestClose(reason: CloseReason)
      modifies this`open, this`shutdowns, this`closeReason
      ensures !open
      ensures old(open) ==> shutdowns == old(shutdowns) + 1 && closeReason == Some(Stored(reason))
      ensures old(open) && reason.text.Empty? ==> closeReason == Some(CloseReason(reason.err, Unknown))
      ensures old(open) && !reason.text.Empty? ==> closeReason == Some(reason)
      ensures !old(open) ==> unchanged(this)
    {
      if open {
        open := false;
        shutdowns := shutdowns + 1;
        closeReason := Some(if reason.text.Empty? then reason.(text := Unknown) else reason);
      }
    }
  }

  /** The device was closed, once, for this reason. */
  predicate ClosedWith(d: Device, reason: CloseReason) reads d {
    !d.open && d.shutdowns == 1 && d.closeReason == Some(Stored(reason))
  }

  /** These devices are different and each is what the map has under its id. */
  ghost predicate Registered(data: map<Id, Device>, devices: seq<Device>) {
    && (forall id :: id in data ==> data[id].id == id)
    && (forall j :: 0 <= j < |devices| ==> devices[j].id in data && data[devices[j].id] == devices[j])
    && (forall i, j :: 0 <= i < j < |devices| ==> devices[i] != devices[j])
  }

  /** What is left of a map without these devices. */
  ghost predicate Left(original: map<Id, Device>, data: map<Id, Device>, gone: seq<Device>) {
    && (forall id :: id in data <==> id in original && original[id] !in gone)
    && (forall id :: id in data ==> data[id] == original[id])
  }

  lemma LeftStep(original: map<Id, Device>, data: map<Id, Device>, devices: seq<Device>, i: nat)
    requires Registered(original, devices) && i < |devices| && Left(original, data, devices[..i])
    ensures devices[i].id in data && data[devices[i].id] == devices[i]
    ensures Left(original, Removed(data, devices[i].id), devices[..i + 1])
  {
    assert devices[i] !in devices[..i];
    assert devices[..i + 1] == devices[..i] + [devices[i]];
  }

  class Registry {
    const limit: int
    var data: map<Id, Device>
    var count: int
    var limitReached: int
    var connect: int
    var disconnect: int
    var duplicates: int

    ghost predicate Valid() reads this, data.Values {
      && (forall id :: id in data ==> data[id].id == id && data[id].Fresh())
      && (limit > 0 ==> |data| <= limit)
      && count == |data|
      && connect + limitReached - disconnect == |data|
    }

    constructor (limit: int)
      ensures Valid() && this.limit == limit && data == map[]
    {
      this.limit := limit;
      data, count, limitReached, connect, disconnect, duplicates := map[], 0, 0, 0, 0, 0;
    }

    method Add(newDevice: Device) returns (refused: bool)
      requires Valid() && newDevice.Fresh() && newDevice !in data.Values
      modifies this, newDevice, data.Values
      ensures Valid()
      ensures !refused <==> newDevice.id in old(data) || limit <= 0 || |old(data)| < limit
      ensures data == if refused then old(data) else old(data)[newDevice.id := newDevice]
      ensures refused ==> ClosedWith(newDevice, CloseReason(true, DeviceLimitReached))
      ensures refused ==> limitReached == old(limitReached) + 1 && duplicates == old(duplicates)
      ensures !refused ==> newDevice.Fresh() && limitReached == old(limitReached)
      ensures connect == old(connect) + if refused then 0 else 1
      ensures disconnect == old(disconnect) + if refused || newDevice.id in old(data) then 1 else 0
      ensures !refused && newDevice.id !in old(data) ==> duplicates == old(duplicates)
      ensures !refused && newDevice.id in old(data) ==>
                var replaced := old(data)[newDevice.id];
                && duplicates == old(duplicates) + 1
                && ClosedWith(replaced, CloseReason(false, Duplicate))
                && newDevice.duplications == old(newDevice.duplications) + old(replaced.duplications) + 1
      ensures forall d :: d in old(data.Values) && d.id != newDevice.id ==> unchanged(d)
    {
      var id := newDevice.id;
      AddedSize(data, limit, id, newDevice);
      if id !in data && limit > 0 && |data| + 1 > limit {
        limitReached := limitReached + 1;
        disconnect := disconnect + 1;
        newDevice.RequestClose(CloseReason(true, DeviceLimitReached));
        return true;
      }
      if id in data {
        Replace(newDevice);
      } else {
        Insert(newDevice);
      }
      return false;
    }

    /** The rest of add, when the limit does not forbid it and there is a device to replace ... */
    method Replace(newDevice: Device)
      requires Valid() && newDevice.Fresh() && newDevice !in data.Values && newDevice.id in data
      modifies this, newDevice`duplications, data[newDevice.id]
      ensures Valid()
      ensures data == old(data)[newDevice.id := newDevice] && newDevice.Fresh() && limitReached == old(limitReached)
      ensures connect == old(connect) + 1 && disconnect == old(disconnect) + 1
      ensures duplicates == old(duplicates) + 1 && ClosedWith(old(data)[newDevice.id], CloseReason(false, Duplicate))
      ensures newDevice.duplications == old(newDevice.duplications) + old(data[newDevice.id].duplications) + 1
    {
      var existing := data[newDevice.id];
      TakePlace(newDevice);
      Displaced(newDevice, existing);
      connect := connect + 1;
    }

    /** The new device is in the map in place of the one it replaces, which is no longer in it. */
    method TakePlace(newDevice: Device)
      requires Valid() && newDevice.Fresh() && newDevice !in data.Values && newDevice.id in data
      modifies this`data, this`count
      ensures data == old(data)[newDevice.id := newDevice] && count == |data| == |old(data)|
      ensures forall id :: id in data ==> data[id].id == id && data[id].Fresh() && data[id] != old(data)[newDevice.id]
    {
      AddedSize(data, 0, newDevice.id, newDevice);
      data := data[newDevice.id := newDevice];
      count := |data|;
    }

    method Displaced(newDevice: Device, existing: Device)
      requires newDevice != existing && existing.Fresh() && newDevice.Fresh()
      requires forall id :: id in data ==> data[id].Fresh() && data[id] != existing
      modifies this`disconnect, this`duplicates, newDevice`duplications, existing
      ensures disconnect == old(disconnect) + 1 && duplicates == old(duplicates) + 1
      ensures newDevice.duplications == old(newDevice.duplications) + old(existing.duplications) + 1
      ensures ClosedWith(existing, CloseReason(false, Duplicate)) && newDevice.Fresh()
      ensures forall id :: id in data ==> data[id].Fresh()
    {
      disconnect := disconnect + 1;
      duplicates := duplicates + 1;
      newDevice.duplications := newDevice.duplications + existing.duplications + 1;
      existing.RequestClose(CloseReason(false, Duplicate));
    }

    /** ... or none. */
    method Insert(newDevice: Device)
      requires Valid() && newDevice.Fresh() && newDevice.id !in data && !OverLimit(data, limit, newDevice.id)
      modifies this
      ensures Valid()
      ensures data == old(data)[newDevice.id := newDevice] && limitReached == old(limitReached)
      ensures duplicates == old(duplicates) && connect == old(connect) + 1 && disconnect == old(disconnect)
    {
      AddedSize(data, limit, newDevice.id, newDevice);
      data := data[newDevice.id := newDevice];
      count := |data|;
      connect := connect + 1;
    }

    method Remove(id: Id, reason: CloseReason) returns (existing: Device?, ok: bool)
      requires Valid()
      modifies this, data.Values
      ensures Valid()
      ensures ok <==> id in old(data)
      ensures existing == if ok then old(data)[id] else null
      ensures data == Removed(old(data), id)
      ensures existing != null ==> ClosedWith(existing, reason)
      ensures disconnect == old(disconnect) + if ok then 1 else 0
      ensures forall i :: i in data ==> unchanged(data[i])
    {
      existing, ok := null, id in data;
      if ok {
        existing := data[id];
        Discard(existing, reason);
      } else {
        count := |data|;
      }
    }

    /** remove, when there is a device under the id: it leaves the map, and then it is closed. */
    method Discard(existing: Device, reason: CloseReason)
      requires Valid() && existing.id in data && data[existing.id] == existing
      modifies this`data, this`count, this`disconnect, existing
      ensures Valid() && data == Removed(old(data), existing.id) && ClosedWith(existing, reason)
      ensures disconnect == old(disconnect) + 1
      ensures forall i :: i in data ==> unchanged(data[i])
    {
      TakeOut(existing);
      disconnect := disconnect + 1;
      existing.RequestClose(reason);
    }

    /** What is left in the map are other devices. */
    method TakeOut(existing: Device)
      requires Valid() && existing.id in data && data[existing.id] == existing
      modifies this`data, this`count
      ensures data == Removed(old(data), existing.id) && count == |data| == |old(data)| - 1
      ensures forall i :: i in data ==> data[i].id == i && data[i].Fresh() && data[i] != existing
    {
      RemovedSize(data, existing.id);
      data := data - {existing.id};
      count := |data|;
    }

    /** Every device the predicate matches is unregistered and closed with its own reason, and no other is touched. */
    method RemoveIf(f: Info -> Option<CloseReason>) returns (removed: nat)
      requires Valid()
      modifies this, data.Values
      ensures Valid()
      ensures forall id :: id in data <==> id in old(data) && f(old(data[id].Visible())).None?
      ensures forall id :: id in data ==> data[id] == old(data)[id] && unchanged(data[id])
      ensures removed == |old(data)| - |data| && disconnect == old(disconnect) + removed
      ensures forall id :: id in old(data) && f(old(data[id].Visible())).Some? ==>
                ClosedWith(old(data)[id], f(old(data[id].Visible())).value)
    {
      var matched, reasons := Matching(f);
      removed := Withdraw(matched, reasons);
      forall id | id in old(data) && f(old(data[id].Visible())).Some?
        ensures ClosedWith(old(data)[id], f(old(data[id].Visible())).value)
      {
        var j :| 0 <= j < |matched| && matched[j] == old(data)[id];
        assert ClosedWith(matched[j], reasons[j]);
      }
    }

    /** The rest of removeIf: the matched devices are unregistered and closed, and the others are as they were. */
    method Withdraw(matched: seq<Device>, reasons: seq<CloseReason>) returns (removed: nat)
      requires Valid() && |reasons| == |matched| && Registered(data, matched)
      modifies this, matched
      ensures Valid() && removed == |old(data)| - |data| && disconnect == old(disconnect) + removed
      ensures forall id :: id in data <==> id in old(data) && old(data)[id] !in matched
      ensures forall id :: id in data ==> data[id] == old(data)[id] && unchanged(data[id])
      ensures forall j :: 0 <= j < |matched| ==> ClosedWith(matched[j], reasons[j])
    {
      removed := RemoveMatched(matched, reasons);
      if removed > 0 {
        disconnect := disconnect + removed;
      }
    }

    /** The first i of the matched devices are unregistered and closed; the others are as they were. */
    ghost predicate Underway(original: map<Id, Device>, matched: seq<Device>, reasons: seq<CloseReason>, i: nat)
      reads this, matched
    {
      && i <= |matched| == |reasons| && count == |data| == |original| - i
      && Left(original, data, matched[..i])
      && (forall j :: 0 <= j < i ==> ClosedWith(matched[j], reasons[j]))
      && (forall j :: i <= j < |matched| ==> matched[j].Fresh())
    }

    /** Removing the matched devices one at a time. */
    method RemoveMatched(matched: seq<Device>, reasons: seq<CloseReason>) returns (removed: nat)
      requires |reasons| == |matched| && count == |data| && Registered(data, matched)
      requires forall j :: 0 <= j < |matched| ==> matched[j].Fresh()
      modifies this`data, this`count, matched
      ensures removed == |matched| && count == |data| == |old(data)| - |matched|
      ensures forall id :: id in data <==> id in old(data) && old(data)[id] !in matched
      ensures forall id :: id in data ==> data[id] == old(data)[id] && unchanged(data[id])
      ensures forall j :: 0 <= j < |matched| ==> ClosedWith(matched[j], reasons[j])
    {
      removed := 0;
      var i := 0;
      while i < |matched|
        invariant Underway(old(data), matched, reasons, i) && removed == i
      {
        var ok := RemoveNext(old(data), matched, reasons, i);
        if ok {
          removed := removed + 1;
        }
        i := i + 1;
      }
      assert matched[..i] == matched;
    }

    method RemoveNext(ghost original: map<Id, Device>, matched: seq<Device>, reasons: seq<CloseReason>, i: nat)
      returns (ok: bool)
      requires Registered(original, matched) && Underway(original, matched, reasons, i) && i < |matched|
      modifies this`data, this`count, matched[i]
      ensures ok && Underway(original, matched, reasons, i + 1)
    {
      LeftStep(original, data, matched, i);
      ok := Barge(matched[i], reasons[i]);
    }

    /** The write-locked part for one matched device, and its close. */
    method Barge(d: Device, reason: CloseReason) returns (ok: bool)
      requires d.id in data ==> data[d.id] == d
      modifies this`data, this`count, d
      ensures ok <==> d.id in old(data)
      ensures data == Removed(old(data), d.id) && |data| == |old(data)| - (if ok then 1 else 0)
      ensures ok ==> count == |data| && (old(d.Fresh()) ==> ClosedWith(d, reason))
      ensures !ok ==> unchanged(this) && unchanged(d)
    {
      RemovedSize(data, d.id);
      ok := d.id in data;
      if ok {
        data := data - {d.id};
        count := |data|;
        d.RequestClose(reason);
      }
    }

    /** The read-locked part: the devices that match and their reasons, each once, in some order. */
    method Matching(f: Info -> Option<CloseReason>) returns (matched: seq<Device>, reasons: seq<CloseReason>)
      requires forall id :: id in data ==> data[id].id == id
      ensures forall d :: d in matched ==> d.id in data && data[d.id] == d && f(d.Visible()).Some?
      ensures forall id :: id in data && f(data[id].Visible()).Some? ==> data[id] in matched
      ensures forall i, j :: 0 <= i < j < |matched| ==> matched[i] != matched[j]
      ensures |reasons| == |matched| && forall i :: 0 <= i < |matched| ==> f(matched[i].Visible()) == Some(reasons[i])
    {
      matched, reasons := [], [];
      var rest := data.Keys;
      while rest != {}
        invariant rest <= data.Keys
        invariant forall d :: d in matched ==> d.id in data && data[d.id] == d && d.id !in rest
        invariant forall d :: d in matched ==> f(d.Visible()).Some?
        invariant forall id :: id in data && id !in rest && f(data[id].Visible()).Some? ==> data[id] in matched
        invariant forall i, j :: 0 <= i < j < |matched| ==> matched[i] != matched[j]
        invariant |reasons| == |matched|
        invariant forall i :: 0 <= i < |matched| ==> f(matched[i].Visible()) == Some(reasons[i])
        decreases |rest|
      {
        var id :| id in rest;
        rest := rest - {id};
        var reason := f(data[id].Visible());
        if reason.Some? {
          matched := matched + [data[id]];
          reasons := reasons + [reason.value];
        }
      }
    }

    method RemoveAll(reason: CloseReason) returns (removed: nat)
      requires Valid()
      modifies this, data.Values
      ensures Valid()
      ensures data == map[] && removed == |old(data)| && disconnect == old(disconnect) + removed
      ensures forall id :: id in old(data) ==> ClosedWith(old(data)[id], reason)
    {
      var original := data;
      data := map[];
      count := 0;
      removed := |original|;
      CloseEach(original, reason);
      disconnect := disconnect + removed;
    }

    method CloseEach(devices: map<Id, Device>, reason: CloseReason)
      requires forall id :: id in devices ==> devices[id].id == id && devices[id].Fresh()
      modifies devices.Values
      ensures forall id :: id in devices ==> ClosedWith(devices[id], reason)
    {
      var rest := devices.Keys;
      while rest != {}
        invariant rest <= devices.Keys
        invariant forall id :: id in devices && id !in rest ==> ClosedWith(devices[id], reason)
        invariant forall id :: id in rest ==> devices[id].Fresh()
        decreases |rest|
      {
        var id :| id in rest;
        rest := rest - {id};
        devices[id].RequestClose(reason);
      }
    }
  }
}
