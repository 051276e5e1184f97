/** The device resolver: looks a device up by a fragment of its display name
    in the list the device registry enumerates. The registry itself is not
    modelled; its answers are the input list. */
module Devices {
  import opened Optional
  import opened Text

  /** A 32-bit audio object identifier. */
  type DeviceId = x: int | 0 <= x < 0x1_0000_0000

  /** The registry's "no such object" identifier. */
  const Unknown: DeviceId := 0

  /** What asking the registry for a device's display name gave back: the
      query failed, it succeeded without a string, or it produced a name. */
  datatype NameQuery = QueryFailed | NilName | Named(text: string)

  /** One enumerated device: its identifier and the answer to its name query. */
  datatype Device = Device(id: DeviceId, nameQuery: NameQuery)

  /** The name the resolver compares against: none when the query failed,
      the empty string when it produced no string. */
  function DisplayName(q: NameQuery): (r: Option<string>)
    ensures r.None? <==> q.QueryFailed?
    ensures q.NilName? ==> r == Some("")
    ensures q.Named? ==> r == Some(q.text)
  {
    match q
    case QueryFailed => None
    case NilName => Some("")
    case Named(text) => Some(text)
  }

  /** The device is a candidate for `fragment`: its name could be read and
      contains the fragment, ignoring case. */
  predicate NameMatches(d: Device, fragment: string) {
    match DisplayName(d.nameQuery)
    case None => false
    case Some(name) => ContainsIgnoringCase(name, fragment)
  }

  /** A device whose name query succeeds without a string gets the empty
      name, which contains no fragment, so it is never a candidate. */
  lemma NamelessDeviceNeverMatches(id: DeviceId, fragment: string)
    ensures !NameMatches(Device(id, NilName), fragment)
  {
  }

  /** Position `i` holds the first candidate in enumeration order. */
  predicate IsFirstMatch(devices: seq<Device>, fragment: string, i: int) {
    && 0 <= i < |devices|
    && NameMatches(devices[i], fragment)
    && forall j :: 0 <= j < i ==> !NameMatches(devices[j], fragment)
  }

  /** Resolution by name fragment: the identifier of the first device, in
      enumeration order, whose name contains the fragment; none if no device
      does. */
  function Resolve(devices: seq<Device>, fragment: string): (r: Option<DeviceId>)
    ensures r.None? <==> forall j :: 0 <= j < |devices| ==> !NameMatches(devices[j], fragment)
    ensures r.Some? ==> exists i :: IsFirstMatch(devices, fragment, i) && devices[i].id == r.value
  {
    if |devices| == 0 then None
    else if NameMatches(devices[0], fragment) then
      assert IsFirstMatch(devices, fragment, 0);
      Some(devices[0].id)
    else
      var rest := Resolve(devices[1..], fragment);
      assert forall j :: 1 <= j < |devices| ==> devices[j] == devices[1..][j - 1];
      if rest.Some? then
        var i :| IsFirstMatch(devices[1..], fragment, i) && devices[1..][i].id == rest.value;
        assert IsFirstMatch(devices, fragment, i + 1);
        rest
      else
        rest
  }

  /** The first match is the one resolution returns: whenever position `i`
      holds the first candidate, its identifier is the result. */
  lemma FirstMatchIsResolved(devices: seq<Device>, fragment: string, i: int)
    requires IsFirstMatch(devices, fragment, i)
    ensures Resolve(devices, fragment) == Some(devices[i].id)
  {
    var r := Resolve(devices, fragment);
    var k :| IsFirstMatch(devices, fragment, k) && devices[k].id == r.value;
    assert !(k < i) && !(i < k);
  }

  /** Devices enumerated after a match do not change the outcome, and when the
      front of the list has no match the rest decides. */
  lemma {:induction false} ResolveAppend(front: seq<Device>, back: seq<Device>, fragment: string)
    ensures Resolve(front + back, fragment)
         == if Resolve(front, fragment).Some? then Resolve(front, fragment) else Resolve(back, fragment)
  {
    if |front| == 0 {
      assert front + back == back;
    } else {
      assert (front + back)[1..] == front[1..] + back;
      ResolveAppend(front[1..], back, fragment);
    }
  }

  /** A device whose name query fails is never chosen, whatever its name
      would have been: removing it from the list changes nothing. */
  lemma {:induction false} FailedNameQueryIsSkipped(
    front: seq<Device>, id: DeviceId, back: seq<Device>, fragment: string)
    ensures Resolve(front + [Device(id, QueryFailed)] + back, fragment)
         == Resolve(front + back, fragment)
  {
    ResolveAppend(front, [Device(id, QueryFailed)] + back, fragment);
    ResolveAppend(front, back, fragment);
    assert front + [Device(id, QueryFailed)] + back == front + ([Device(id, QueryFailed)] + back);
    assert ([Device(id, QueryFailed)] + back)[1..] == back;
  }

  /** The enumeration loop of the registry query: walks the identifiers in
      order, reads each name, skips devices whose query fails, and returns
      at the first name that contains the fragment. */
  method GetDeviceId(devices: seq<Device>, fragment: string) returns (r: Option<DeviceId>)
    ensures r == Resolve(devices, fragment)
  {
    var i := 0;
    while i < |devices|
      invariant 0 <= i <= |devices|
      invariant forall j :: 0 <= j < i ==> !NameMatches(devices[j], fragment)
    {
      var query := devices[i].nameQuery;
      if !query.QueryFailed? {
        var name := if query.Named? then query.text else "";
        var found := LocalizedCaseInsensitiveContains(name, fragment);
        if found {
          FirstMatchIsResolved(devices, fragment, i);
          return Some(devices[i].id);
        }
      }
      i := i + 1;
    }
    return None;
  }
}
