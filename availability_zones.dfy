/**
 * The availability-zone custom resource (tasks/availability_zones.py): a
 * stable, comma-joined list of the region's availability zones. Zones
 * recorded by an earlier run keep their place; zones seen for the first
 * time are appended in sorted order.
 */
module AvailabilityZones {
  import opened Wrappers
  import opened Intrinsics
  import opened CustomResource

  // ---------------------------------------------------------------------------
  // Python's string order and sorted()
  // ---------------------------------------------------------------------------

  /** a <= b in Python's order on str: lexicographic by code point. */
  predicate Below(a: string, b: string)
    decreases |a|
  {
    |a| == 0 || (|b| > 0 && (a[0] < b[0] || (a[0] == b[0] && Below(a[1..], b[1..]))))
  }

  lemma {:induction false} BelowTotal(a: string, b: string)
    ensures Below(a, b) || Below(b, a)
    decreases |a|
  {
    if |a| > 0 && |b| > 0 && a[0] == b[0] {
      BelowTotal(a[1..], b[1..]);
    }
  }

  lemma {:induction false} BelowTransitive(a: string, b: string, c: string)
    requires Below(a, b) && Below(b, c)
    ensures Below(a, c)
    decreases |a|
  {
    if |a| > 0 && a[0] == b[0] && b[0] == c[0] {
      BelowTransitive(a[1..], b[1..], c[1..]);
    }
  }

  predicate Sorted(s: seq<string>)
  {
    forall i, j :: 0 <= i < j < |s| ==> Below(s[i], s[j])
  }

  /** x put in front of the first element it is not above. */
  function Insert(x: string, s: seq<string>): seq<string>
    decreases |s|
  {
    if |s| == 0 then [x]
    else if Below(x, s[0]) then [x] + s
    else [s[0]] + Insert(x, s[1..])
  }

  /** sorted(): an insertion sort. */
  function Sort(s: seq<string>): seq<string>
    decreases |s|
  {
    if |s| == 0 then [] else Insert(s[0], Sort(s[1..]))
  }

  lemma {:induction false} InsertPermutes(x: string, s: seq<string>)
    ensures multiset(Insert(x, s)) == multiset(s) + multiset{x}
    decreases |s|
  {
    if |s| > 0 && !Below(x, s[0]) {
      InsertPermutes(x, s[1..]);
      assert s == [s[0]] + s[1..];
    }
  }

  /** An element below every element of a sorted sequence can go in front. */
  lemma PrependSorted(x: string, s: seq<string>)
    requires Sorted(s)
    requires forall k :: 0 <= k < |s| ==> Below(x, s[k])
    ensures Sorted([x] + s)
  {
    var r := [x] + s;
    forall i, j | 0 <= i < j < |r|
      ensures Below(r[i], r[j])
    {
      if i == 0 {
        assert r[j] == s[j - 1];
      } else {
        assert r[i] == s[i - 1] && r[j] == s[j - 1];
      }
    }
  }

  lemma {:induction false} InsertSorted(x: string, s: seq<string>)
    requires Sorted(s)
    ensures Sorted(Insert(x, s))
    decreases |s|
  {
    if |s| == 0 {
    } else if Below(x, s[0]) {
      forall k | 0 <= k < |s|
        ensures Below(x, s[k])
      {
        if k > 0 {
          BelowTransitive(x, s[0], s[k]);
        }
      }
      PrependSorted(x, s);
    } else {
      BelowTotal(x, s[0]);
      var tail := Insert(x, s[1..]);
      InsertSorted(x, s[1..]);
      InsertPermutes(x, s[1..]);
      forall k | 0 <= k < |tail|
        ensures Below(s[0], tail[k])
      {
        var y := tail[k];
        assert y in multiset(tail);
        if y != x {
          assert y in multiset(s[1..]);
          var m :| 0 <= m < |s[1..]| && s[1..][m] == y;
          assert s[m + 1] == y;
        }
      }
      PrependSorted(s[0], tail);
    }
  }

  /** sorted() returns its input in ascending order. */
  lemma {:induction false} SortCorrect(s: seq<string>)
    ensures Sorted(Sort(s))
    ensures multiset(Sort(s)) == multiset(s)
    decreases |s|
  {
    if |s| > 0 {
      var rest := Sort(s[1..]);
      assert Sort(s) == Insert(s[0], rest);
      SortCorrect(s[1..]);
      InsertSorted(s[0], rest);
      InsertPermutes(s[0], rest);
      assert s == [s[0]] + s[1..];
      assert multiset(s) == multiset(s[1..]) + multiset{s[0]};
    }
  }

  // ---------------------------------------------------------------------------
  // The stable zone list
  // ---------------------------------------------------------------------------

  /** The zones recorded by the previous run: the PhysicalResourceId split on
      ",", or none when it is absent or empty. */
  function PreviousZoneNames(event: Event): seq<string>
  {
    if "PhysicalResourceId" in event && event["PhysicalResourceId"] != ""
    then Split(",", event["PhysicalResourceId"])
    else []
  }

  /** The zones of `current`, in order, that `previous` does not record. */
  function NewZones(previous: seq<string>, current: seq<string>): seq<string>
    decreases |current|
  {
    if |current| == 0 then []
    else (if current[0] in previous then [] else [current[0]]) + NewZones(previous, current[1..])
  }

  /** previous_zone_names followed by the new ones among the sorted current zones. */
  function StableZoneNames(previous: seq<string>, current: seq<string>): seq<string>
  {
    previous + NewZones(previous, Sort(current))
  }

  lemma {:induction false} NewZonesMembers(previous: seq<string>, current: seq<string>)
    ensures forall z :: z in NewZones(previous, current) <==> z in current && z !in previous
    decreases |current|
  {
    if |current| > 0 {
      NewZonesMembers(previous, current[1..]);
      assert current == [current[0]] + current[1..];
    }
  }

  /** The new zones keep the order they have in `current`. */
  lemma {:induction false} NewZonesSorted(previous: seq<string>, current: seq<string>)
    requires Sorted(current)
    ensures Sorted(NewZones(previous, current))
    decreases |current|
  {
    if |current| > 0 {
      var rest := current[1..];
      assert Sorted(rest) by {
        forall i, j | 0 <= i < j < |rest| ensures Below(rest[i], rest[j]) {
          assert rest[i] == current[i + 1] && rest[j] == current[j + 1];
        }
      }
      NewZonesSorted(previous, rest);
      NewZonesMembers(previous, rest);
      var tail := NewZones(previous, rest);
      if current[0] !in previous {
        var r := [current[0]] + tail;
        forall i, j | 0 <= i < j < |r| ensures Below(r[i], r[j]) {
          if i == 0 {
            assert tail[j - 1] in rest;
            var k :| 0 <= k < |rest| && rest[k] == tail[j - 1];
            assert current[k + 1] == tail[j - 1];
          } else {
            assert r[i] == tail[i - 1] && r[j] == tail[j - 1];
          }
        }
      }
    }
  }

  /** The previous list is a prefix of the result, and what follows it is
      exactly the current zones it did not record, in sorted order. */
  lemma StableZoneNamesShape(previous: seq<string>, current: seq<string>)
    ensures var r := StableZoneNames(previous, current);
            r[..|previous|] == previous &&
            (forall z :: z in r[|previous|..] <==> z in current && z !in previous) &&
            Sorted(r[|previous|..])
  {
    var r := StableZoneNames(previous, current);
    assert r[|previous|..] == NewZones(previous, Sort(current));
    SortCorrect(current);
    NewZonesMembers(previous, Sort(current));
    NewZonesSorted(previous, Sort(current));
    forall z
      ensures z in Sort(current) <==> z in current
    {
      assert z in Sort(current) <==> z in multiset(Sort(current));
    }
  }

  /** Every zone is listed: those recorded earlier, even if no longer
      reported, and every current one. */
  lemma StableZoneNamesRetains(previous: seq<string>, current: seq<string>)
    ensures forall z :: z in StableZoneNames(previous, current) <==> z in previous || z in current
  {
    StableZoneNamesShape(previous, current);
    var r := StableZoneNames(previous, current);
    forall z | z in r
      ensures z in previous || z in current
    {
      var i :| 0 <= i < |r| && r[i] == z;
      if i >= |previous| {
        assert r[|previous|..][i - |previous|] == z;
      }
    }
    forall z | z in previous || z in current
      ensures z in r
    {
      if z in previous {
        var i :| 0 <= i < |previous| && previous[i] == z;
        assert r[i] == z;
      } else {
        assert z in r[|previous|..];
      }
    }
  }

  /** The result is empty exactly when there is neither an earlier list nor a
      current zone. */
  lemma StableZoneNamesEmpty(previous: seq<string>, current: seq<string>)
    ensures |StableZoneNames(previous, current)| == 0 <==> |previous| == 0 && |current| == 0
  {
    StableZoneNamesRetains(previous, current);
    if |current| > 0 {
      assert current[0] in StableZoneNames(previous, current);
    }
  }

  // ---------------------------------------------------------------------------
  // The handler
  // ---------------------------------------------------------------------------

  const NoZones: Exc := Exc("ValueError", "No availability zones found", true)

  /** The body of the handler's `with` block: a Create or Update stores the
      stable list as the PhysicalResourceId; any other request type leaves
      the response alone. `describe` is the ZoneName list EC2's
      DescribeAvailabilityZones returns for the filters, or what it raises. */
  function ZoneBody(event: Event, describe: Result<seq<string>, Exc>, resource: Response): Outcome
  {
    if "RequestType" !in event then Raised(resource, KeyError("RequestType"))
    else if event["RequestType"] != "Create" && event["RequestType"] != "Update" then Completed(resource)
    else
      var previous := PreviousZoneNames(event);
      match describe
      case Failure(e) => Raised(resource, e)
      case Success(zones) =>
        var stable := StableZoneNames(previous, zones);
        if |stable| == 0 then Raised(resource, NoZones)
        else Completed(resource["PhysicalResourceId" := JStr(Join(",", stable))])
  }

  /** handler: the zone body inside the custom-resource envelope. */
  method Handler(event: Event, describe: Result<seq<string>, Exc>, channel: ResponseChannel)
    returns (result: Result<(), Exc>)
    modifies channel
    ensures result == Invocation(event, r => ZoneBody(event, describe, r)).0
    ensures channel.sent == old(channel.sent) + Invocation(event, r => ZoneBody(event, describe, r)).1
  {
    result := CloudFormationCustomResource(event, r => ZoneBody(event, describe, r), channel);
  }

  /** Only a Create or Update touches the response, and then only its
      PhysicalResourceId; a Delete returns it unchanged. */
  lemma ZoneBodyTouchesOnlyPhysicalId(event: Event, describe: Result<seq<string>, Exc>, resource: Response)
    ensures var out := ZoneBody(event, describe, resource);
            forall k :: k != "PhysicalResourceId" ==>
              (k in out.resource <==> k in resource) && (k in resource ==> out.resource[k] == resource[k])
    ensures "RequestType" in event && event["RequestType"] == "Delete" ==>
              ZoneBody(event, describe, resource) == Completed(resource)
    ensures KeepsStatus(resource, ZoneBody(event, describe, resource).resource)
  {
  }

  /** A successful Create or Update responds SUCCESS with the comma-joined
      stable list as the PhysicalResourceId. */
  lemma CreateRecordsZones(event: Event, zones: seq<string>)
    requires InitialResponse(event).Success? && "ResponseURL" in event
    requires "RequestType" in event && event["RequestType"] in {"Create", "Update"}
    requires |StableZoneNames(PreviousZoneNames(event), zones)| > 0
    ensures var (r, sent) := Invocation(event, res => ZoneBody(event, Success(zones), res));
            r.Success? && |sent| == 1 &&
            sent[0].payload["Status"] == JStr("SUCCESS") &&
            sent[0].payload["PhysicalResourceId"] == JStr(Join(",", StableZoneNames(PreviousZoneNames(event), zones)))
  {
    InitialResponseFields(event);
  }

  /** With no earlier list and no zone reported, the response is FAILED with
      the ValueError's reason. */
  lemma NoZonesFails(event: Event)
    requires InitialResponse(event).Success? && "ResponseURL" in event
    requires "RequestType" in event && event["RequestType"] in {"Create", "Update"}
    requires PreviousZoneNames(event) == []
    ensures var (r, sent) := Invocation(event, res => ZoneBody(event, Success([]), res));
            r.Success? && |sent| == 1 && sent[0].payload["Status"] == JStr("FAILED") &&
            sent[0].payload["Reason"] == JStr("ValueError: No availability zones found")
  {
    var r0 := InitialResponse(event).value;
    StableZoneNamesEmpty([], []);
    assert StableZoneNames(PreviousZoneNames(event), []) == [];
    assert ZoneBody(event, Success([]), r0) == Raised(r0, NoZones);
    var failed := Failed(r0, NoZones);
    assert AfterBody(Raised(r0, NoZones)) == Success(failed);
    assert Invocation(event, res => ZoneBody(event, Success([]), res)) == (Success(()), [Put(event, failed)]);
    NoZonesReason();
    assert failed["Status"] == JStr("FAILED");
  }

  /** The Reason the ValueError becomes. */
  lemma NoZonesReason()
    ensures NoZones.typeName + ": " + NoZones.message == "ValueError: No availability zones found"
  {
    assert "ValueError" + ": " == "ValueError: ";
    assert "ValueError: " + "No availability zones found" == "ValueError: No availability zones found";
  }

  /** Zone names that survive the comma-join: non-empty and comma-free. */
  predicate PlainNames(zones: seq<string>)
  {
    forall i :: 0 <= i < |zones| ==> |zones[i]| > 0 && ',' !in zones[i]
  }

  /** Running again on the recorded id with the same current zones gives the
      same list. */
  lemma Idempotent(event: Event, zones: seq<string>)
    requires PlainNames(PreviousZoneNames(event)) && PlainNames(zones)
    requires |StableZoneNames(PreviousZoneNames(event), zones)| > 0
    ensures var stable := StableZoneNames(PreviousZoneNames(event), zones);
            var again := event["PhysicalResourceId" := Join(",", stable)];
            StableZoneNames(PreviousZoneNames(again), zones) == stable
  {
    var previous := PreviousZoneNames(event);
    var stable := StableZoneNames(previous, zones);
    StablePlain(previous, zones);
    SplitJoin(',', stable);
    JoinHead(",", stable);
    var again := event["PhysicalResourceId" := Join(",", stable)];
    assert PreviousZoneNames(again) == stable;
    StableZoneNamesRetains(previous, zones);
    SortCorrect(zones);
    forall z | z in Sort(zones)
      ensures z in stable
    {
      assert z in multiset(Sort(zones));
    }
    NoNewZones(stable, Sort(zones));
    assert stable + [] == stable;
  }

  /** The stable list of plain names is made of plain names. */
  lemma StablePlain(previous: seq<string>, zones: seq<string>)
    requires PlainNames(previous) && PlainNames(zones)
    ensures PlainNames(StableZoneNames(previous, zones))
  {
    var stable := StableZoneNames(previous, zones);
    StableZoneNamesShape(previous, zones);
    forall i | 0 <= i < |stable|
      ensures |stable[i]| > 0 && ',' !in stable[i]
    {
      if i < |previous| {
        assert stable[i] == previous[i];
      } else {
        assert stable[|previous|..][i - |previous|] == stable[i];
        assert stable[i] in zones;
        var k :| 0 <= k < |zones| && zones[k] == stable[i];
      }
    }
  }

  /** Nothing is new when every current zone is already recorded. */
  lemma {:induction false} NoNewZones(previous: seq<string>, current: seq<string>)
    requires forall z :: z in current ==> z in previous
    ensures NewZones(previous, current) == []
    decreases |current|
  {
    if |current| > 0 {
      assert current[0] in current;
      forall z | z in current[1..] ensures z in previous {
        var k :| 0 <= k < |current[1..]| && current[1..][k] == z;
        assert current[k + 1] == z;
      }
      NoNewZones(previous, current[1..]);
    }
  }

  /** A join starts with its first part. */
  lemma JoinHead(sep: string, parts: seq<string>)
    requires |parts| >= 1
    ensures parts[0] <= Join(sep, parts)
  {
  }
}
