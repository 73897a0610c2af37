/** A line: an ordered chain of segments (src/line.rs). The Rust struct is
    updated in place by its methods, so it is a class here; the segment
    vector is a `seq` field that the methods reassign. */
module Lines {
  import opened Ids
  import opened Results
  import opened LineRoutes

  datatype LineError = RemoveSegmentError | NoCommonStationError

  /** Each segment starts where the one before it ends. */
  ghost predicate Contiguous(segs: seq<Route>)
  {
    forall i :: 0 < i < |segs| ==> segs[i - 1].endStation == segs[i].startStation
  }

  /** The last segment ends where the first one starts: the chain is a loop. */
  ghost predicate Closed(segs: seq<Route>)
  {
    |segs| > 0 && segs[|segs| - 1].endStation == segs[0].startStation
  }

  /** Index of the first segment with id `sid`, as the `for` loops over
      `self.segments` find it. */
  function FindSegment(segs: seq<Route>, sid: u32): (r: Option<nat>)
    ensures r.None? ==> forall j :: 0 <= j < |segs| ==> segs[j].id != sid
    ensures r.Some? ==> r.value < |segs| && segs[r.value].id == sid
                        && forall j :: 0 <= j < r.value ==> segs[j].id != sid
  {
    if segs == [] then None
    else if segs[0].id == sid then Some(0)
    else match FindSegment(segs[1..], sid)
      case None => None
      case Some(i) => Some(i + 1)
  }

  /** Index of the first segment that ends at `station`. */
  function FindEndingAt(segs: seq<Route>, station: u32): (r: Option<nat>)
    ensures r.None? ==> forall j :: 0 <= j < |segs| ==> segs[j].endStation != station
    ensures r.Some? ==> r.value < |segs| && segs[r.value].endStation == station
                        && forall j :: 0 <= j < r.value ==> segs[j].endStation != station
  {
    if segs == [] then None
    else if segs[0].endStation == station then Some(0)
    else match FindEndingAt(segs[1..], station)
      case None => None
      case Some(i) => Some(i + 1)
  }

  /** Where `get_next_segment`, as written, reads inside the vector: its
      `counter` stays 0, so the `counter - 1` arms underflow, and the
      `counter + 1` arms need a second segment. */
  predicate NextDefinedAsWritten(segs: seq<Route>, looping: bool, sid: u32, forward: bool)
  {
    match FindSegment(segs, sid)
    case None => true
    case Some(i) =>
      && |segs| >= 2
      && (forward ==> segs[i] != segs[|segs| - 1] || looping)
      && (!forward ==> segs[i] == segs[0])
  }

  /** Where `get_next_segment` as intended reads inside the vector: only a
      one-segment line that does not loop has no neighbour to turn back to. */
  predicate NextDefined(segs: seq<Route>, looping: bool, sid: u32, forward: bool)
  {
    match FindSegment(segs, sid)
    case None => true
    case Some(i) => !looping ==> |segs| >= 2
  }

  /** At most the first segment ending at `station` is at index 0, and there
      is a second segment to merge it with. */
  predicate MergeAtFirst(segs: seq<Route>, station: u32)
  {
    match FindEndingAt(segs, station)
    case None => true
    case Some(p) => p == 0 && |segs| >= 2
  }

  /** `remove_segment` on the first segment of a loop: the last segment now
      ends where the second one starts. */
  function DropFirstOfLoop(s: seq<Route>): (r: seq<Route>)
    requires |s| >= 2
    ensures |r| == |s| - 1
    ensures Closed(r)
    ensures Contiguous(s) ==> Contiguous(r)
  {
    s[1..|s| - 1] + [s[|s| - 1].(endStation := s[1].startStation)]
  }

  /** `remove_segment` on the last segment of a loop: the first segment now
      starts where the new last one ends. */
  function DropLastOfLoop(s: seq<Route>): (r: seq<Route>)
    requires |s| >= 2
    ensures |r| == |s| - 1
    ensures Closed(r)
    ensures Contiguous(s) ==> Contiguous(r)
  {
    [s[0].(startStation := s[|s| - 2].endStation)] + s[1..|s| - 1]
  }

  /** `remove_segment` on an inner segment: its predecessor now ends where
      its successor starts. */
  function DropInner(s: seq<Route>, i: nat): (r: seq<Route>)
    requires 0 < i < |s| - 1
    ensures |r| == |s| - 1
    ensures Contiguous(s) ==> Contiguous(r)
    ensures Closed(s) ==> Closed(r)
  {
    s[..i - 1] + [s[i - 1].(endStation := s[i + 1].startStation)] + s[i + 1..]
  }

  class Line {
    const id: u32
    const name: string
    var segments: seq<Route>
    var looping: bool
    var startSegment: Option<u32>
    var endSegment: Option<u32>

    /** An empty line with the given id. */
    constructor (id: u32, name: string)
      ensures this.id == id && this.name == name
      ensures segments == [] && !looping
      ensures startSegment == None && endSegment == None
    {
      this.id := id;
      this.name := name;
      segments := [];
      looping := false;
      startSegment := None;
      endSegment := None;
    }

    /** `add_segment_end`: one new segment from the old last segment's end
        station to `endStation`. The counter is bumped here and again inside
        `Route::new`, so the new id is the old counter plus two. */
    method AddSegmentEnd(segmentId: u32, endStation: u32) returns (segment: Route, segmentId': u32)
      requires segments != []
      modifies this
      ensures segmentId' == Inc32(Inc32(segmentId))
      ensures segment == Route(segmentId', name, old(segments)[|old(segments)| - 1].endStation, endStation)
      ensures segments == old(segments) + [segment]
      ensures endSegment == Some(segment.id)
      ensures looping == old(looping) && startSegment == old(startSegment)
      ensures Contiguous(old(segments)) ==> Contiguous(segments)
    {
      var bumped := Inc32(segmentId);
      var lastStation := segments[|segments| - 1].endStation;
      segment, segmentId' := NewRoute(bumped, name, lastStation, endStation);
      segments := segments + [segment];
      endSegment := Some(segment.id);
    }

    /** `add_segment_start`: one new segment from `startStation` to the old
        first segment's start station, inserted in front; the new id is the
        old counter plus two. */
    method AddSegmentStart(segmentId: u32, startStation: u32) returns (segment: Route, segmentId': u32)
      requires segments != []
      modifies this
      ensures segmentId' == Inc32(Inc32(segmentId))
      ensures segment == Route(segmentId', name, startStation, old(segments)[0].startStation)
      ensures segments == [segment] + old(segments)
      ensures startSegment == Some(segment.id)
      ensures looping == old(looping) && endSegment == old(endSegment)
      ensures Contiguous(old(segments)) ==> Contiguous(segments)
    {
      var bumped := Inc32(segmentId);
      var oldFirstStation := segments[0].startStation;
      segment, segmentId' := NewRoute(bumped, name, startStation, oldFirstStation);
      segments := [segment] + segments;
      startSegment := Some(segment.id);
    }

    /** `add_segment_middle`. When the line ends at `startStation` and begins
        at `endStation`, the closing segment is appended and the line becomes
        a loop with neither start nor end segment. Otherwise, for the first
        segment ending at `startStation` (index `p`), the counter bump is
        undone and the new segment is inserted at index `p + 2`, or appended
        through `add_segment_end` when that index is past the end; the
        insertion stores `endStation` as `start_segment`. Without such a
        segment nothing changes except the bumped counter. */
    method AddSegmentMiddle(segmentId: u32, startStation: u32, endStation: u32)
      returns (r: Option<Route>, segmentId': u32)
      requires segments != []
      modifies this
      ensures var s := old(segments);
        s[|s| - 1].endStation == startStation && s[0].startStation == endStation ==>
          && segmentId' == Inc32(Inc32(segmentId))
          && r == Some(Route(segmentId', name, startStation, endStation))
          && segments == s + [r.value]
          && looping && startSegment == None && endSegment == None
          && (Contiguous(s) ==> Contiguous(segments) && Closed(segments))
      ensures var s := old(segments);
        !(s[|s| - 1].endStation == startStation && s[0].startStation == endStation) ==>
          match FindEndingAt(s, startStation)
          case None =>
            && r == None && segmentId' == Inc32(segmentId)
            && segments == s && looping == old(looping)
            && startSegment == old(startSegment) && endSegment == old(endSegment)
          case Some(p) =>
            if p + 2 >= |s| then
              && segmentId' == Inc32(Inc32(segmentId))
              && r == Some(Route(segmentId', name, s[|s| - 1].endStation, endStation))
              && segments == s + [r.value]
              && endSegment == Some(segmentId')
              && looping == old(looping) && startSegment == old(startSegment)
            else
              && segmentId' == Inc32(segmentId)
              && r == Some(Route(segmentId', name, startStation, endStation))
              && segments == s[..p + 2] + [r.value] + s[p + 2..]
              && startSegment == Some(endStation)
              && looping == old(looping) && endSegment == old(endSegment)
    {
      var bumped := Inc32(segmentId);
      if segments[|segments| - 1].endStation == startStation && segments[0].startStation == endStation {
        var segment;
        segment, segmentId' := NewRoute(bumped, name, startStation, endStation);
        segments := segments + [segment];
        startSegment := None;
        endSegment := None;
        looping := true;
        return Some(segment), segmentId';
      }
      var i := 0;
      while i < |segments|
        invariant i <= |segments|
        invariant forall j :: 0 <= j < i ==> segments[j].endStation != startStation
      {
        if segments[i].endStation == startStation {
          // `i` has already been bumped once in the source, so `index` is `i + 2`
          var index := i + 2;
          var restored := Dec32(bumped);
          if index >= |segments| {
            var segment;
            segment, segmentId' := AddSegmentEnd(restored, endStation);
            return Some(segment), segmentId';
          }
          var segment;
          segment, segmentId' := NewRoute(restored, name, startStation, endStation);
          startSegment := Some(endStation);
          segments := segments[..index] + [segment] + segments[index..];
          return Some(segment), segmentId';
        }
        i := i + 1;
      }
      return None, bumped;
    }

    /** `get_next_segment` as written: the segment to travel on after
        `segmentId` and whether to turn around. Its `counter` is never
        advanced, so every arm that stays in bounds answers with the second
        segment, turning only when travelling backward on a line that does not
        loop; an unknown id is answered with itself. */
    method GetNextSegment(segmentId: u32, forward: bool) returns (next: u32, turn: bool)
      requires NextDefinedAsWritten(segments, looping, segmentId, forward)
      ensures FindSegment(segments, segmentId).None? ==> next == segmentId && !turn
      ensures FindSegment(segments, segmentId).Some? ==>
        next == segments[1].id && turn == (!forward && !looping)
    {
      var counter := 0;
      var i := 0;
      while i < |segments|
        invariant i <= |segments|
        invariant forall j :: 0 <= j < i ==> segments[j].id != segmentId
      {
        var segment := segments[i];
        if segment.id == segmentId && forward {
          if segment == segments[|segments| - 1] && looping {
            return segments[counter + 1].id, false;
          } else if segment == segments[|segments| - 1] {
            // reads `segments[counter - 1]` with `counter == 0`
            assert false;
          } else {
            return segments[counter + 1].id, false;
          }
        } else if segment.id == segmentId && !forward {
          if segment == segments[0] && looping {
            return segments[counter + 1].id, false;
          } else if segment == segments[0] {
            return segments[counter + 1].id, true;
          } else {
            // reads `segments[counter - 1]` with `counter == 0`
            assert false;
          }
        }
        i := i + 1;
      }
      return segmentId, false;
    }

    /** `get_next_segment` as evidently intended: `counter` tracks the
        position of the found segment, and the ends are recognised by
        position. Travelling forward leads to the next segment and backward to
        the previous one; on a loop the last segment is followed by the first,
        so a train on a loop never turns; a line that does not loop turns
        trains around at its first and last segments. */
    method GetNextSegmentIntended(segmentId: u32, forward: bool) returns (next: u32, turn: bool)
      requires NextDefined(segments, looping, segmentId, forward)
      ensures FindSegment(segments, segmentId).None? ==> next == segmentId && !turn
      ensures looping ==> !turn
      ensures FindSegment(segments, segmentId).Some? ==>
        var i := FindSegment(segments, segmentId).value;
        var n := |segments|;
        && (forward && i < n - 1 ==> next == segments[i + 1].id && !turn)
        && (forward && i == n - 1 && looping ==> next == segments[0].id)
        && (forward && i == n - 1 && !looping ==> next == segments[i - 1].id && turn)
        && (!forward && i > 0 ==> next == segments[i - 1].id && !turn)
        && (!forward && i == 0 && looping ==> next == segments[n - 1].id)
        && (!forward && i == 0 && !looping ==> next == segments[1].id && turn)
    {
      var counter := 0;
      while counter < |segments|
        invariant counter <= |segments|
        invariant forall j :: 0 <= j < counter ==> segments[j].id != segmentId
      {
        var last := |segments| - 1;
        if segments[counter].id == segmentId && forward {
          if counter == last && looping {
            return segments[0].id, false;
          } else if counter == last {
            return segments[counter - 1].id, true;
          } else {
            return segments[counter + 1].id, false;
          }
        } else if segments[counter].id == segmentId && !forward {
          if counter == 0 && looping {
            return segments[last].id, false;
          } else if counter == 0 {
            return segments[counter + 1].id, true;
          } else {
            return segments[counter - 1].id, false;
          }
        }
        counter := counter + 1;
      }
      return segmentId, false;
    }

    /** `merge_segments`, for a first matching segment at index 0 (where the
        never-advanced `counter` is right): the first segment is extended to
        the second one's end station and the second one is removed. On a line
        that does not loop, `end_segment` becomes the merged segment when it
        is now the last one. */
    method MergeSegments(commonStation: u32) returns (r: Result<Route, LineError>)
      requires MergeAtFirst(segments, commonStation)
      modifies this
      ensures FindEndingAt(old(segments), commonStation).None? ==>
        && r == Err(NoCommonStationError)
        && segments == old(segments) && endSegment == old(endSegment)
      ensures FindEndingAt(old(segments), commonStation).Some? ==>
        var merged := old(segments)[0].(endStation := old(segments)[1].endStation);
        && r == Ok(merged)
        && segments == [merged] + old(segments)[2..]
        && endSegment == (if merged == segments[|segments| - 1] && !looping then Some(merged.id) else old(endSegment))
      ensures looping == old(looping) && startSegment == old(startSegment)
      ensures Contiguous(old(segments)) ==> Contiguous(segments)
    {
      var counter := 0;
      var i := 0;
      while i < |segments|
        invariant i <= |segments|
        invariant forall j :: 0 <= j < i ==> segments[j].endStation != commonStation
      {
        if segments[i].endStation == commonStation {
          var merged := segments[counter].(endStation := segments[counter + 1].endStation);
          segments := segments[counter := merged];
          segments := segments[..counter + 1] + segments[counter + 2..];
          if merged == segments[|segments| - 1] && !looping {
            endSegment := Some(merged.id);
          }
          return Ok(segments[counter]);
        }
        i := i + 1;
      }
      return Err(NoCommonStationError);
    }

    /** `remove_segment`: removes the first segment with id `segmentId` and
        returns it, re-stitching its neighbours so the chain stays connected:
        - the first segment of a loop: the last segment now ends where the
          second one starts;
        - the first segment of a line that does not loop: `start_segment`
          becomes the second segment;
        - the last segment of a loop: the first segment now starts where the
          new last one ends;
        - the last segment of a line that does not loop: dropped, and
          `end_segment` is left as it was (the source compares with `==`
          where it evidently meant to assign);
        - any other segment: its predecessor now ends where its successor
          starts.
        An unknown id is reported as `RemoveSegmentError`. */
    method RemoveSegment(segmentId: u32) returns (r: Result<Route, LineError>)
      requires |segments| == 1 ==> segments[0].id != segmentId
      modifies this
      ensures looping == old(looping)
      ensures FindSegment(old(segments), segmentId).None? ==>
        && r == Err(RemoveSegmentError)
        && segments == old(segments)
        && startSegment == old(startSegment) && endSegment == old(endSegment)
      ensures FindSegment(old(segments), segmentId).Some? ==>
        var s := old(segments);
        var n := |s|;
        var i := FindSegment(s, segmentId).value;
        && r == Ok(s[i])
        && |segments| == n - 1
        && endSegment == old(endSegment)
        && (i == 0 && looping ==>
              segments == DropFirstOfLoop(s) && startSegment == old(startSegment))
        && (i == 0 && !looping ==>
              segments == s[1..] && startSegment == Some(s[1].id))
        && (i > 0 && s[i] == s[n - 1] && looping ==>
              segments == DropLastOfLoop(s) && startSegment == old(startSegment))
        && (i > 0 && s[i] == s[n - 1] && !looping ==>
              segments == s[..n - 1] && startSegment == old(startSegment))
        && (i > 0 && s[i] != s[n - 1] ==>
              segments == DropInner(s, i) && startSegment == old(startSegment))
      ensures Contiguous(old(segments)) ==> Contiguous(segments)
    {
      var counter := 0;
      while counter < |segments|
        invariant counter <= |segments|
        invariant forall j :: 0 <= j < counter ==> segments[j].id != segmentId
      {
        if segments[counter].id == segmentId {
          assert FindSegment(segments, segmentId) == Some(counter);
          var removed := RemoveFound(counter);
          return Ok(removed);
        }
        counter := counter + 1;
      }
      return Err(RemoveSegmentError);
    }

    /** The body of `remove_segment` once the loop has found the segment at
        index `counter`: the five re-stitching arms. */
    method RemoveFound(counter: nat) returns (removed: Route)
      requires counter < |segments| && (|segments| == 1 ==> counter != 0)
      requires forall j :: 0 <= j < counter ==> segments[j].id != segments[counter].id
      modifies this
      ensures var s := old(segments);
        var n := |s|;
        && removed == s[counter]
        && |segments| == n - 1
        && looping == old(looping) && endSegment == old(endSegment)
        && (counter == 0 && looping ==>
              segments == DropFirstOfLoop(s) && startSegment == old(startSegment))
        && (counter == 0 && !looping ==>
              segments == s[1..] && startSegment == Some(s[1].id))
        && (counter > 0 && s[counter] == s[n - 1] && looping ==>
              segments == DropLastOfLoop(s) && startSegment == old(startSegment))
        && (counter > 0 && s[counter] == s[n - 1] && !looping ==>
              segments == s[..n - 1] && startSegment == old(startSegment))
        && (counter > 0 && s[counter] != s[n - 1] ==>
              segments == DropInner(s, counter) && startSegment == old(startSegment))
      ensures Contiguous(old(segments)) ==> Contiguous(segments)
    {
      var n := |segments|;
      ghost var s0 := segments;
      var segment := segments[counter];
      if segment == segments[0] && looping {
        assert counter == 0;
        segments := segments[n - 1 := segments[n - 1].(endStation := segments[1].startStation)];
        segments := segments[1 := segments[1].(startStation := segments[n - 1].endStation)];
        removed := segments[0];
        segments := segments[1..];
        assert segments == DropFirstOfLoop(s0);
      } else if segment == segments[0] {
        assert counter == 0;
        startSegment := Some(segments[1].id);
        removed := segments[0];
        segments := segments[1..];
      } else if segment == segments[n - 1] && looping {
        removed := segments[n - 1];
        segments := segments[..n - 1];
        segments := segments[0 := segments[0].(startStation := segments[n - 2].endStation)];
        segments := segments[n - 2 := segments[n - 2].(endStation := segments[0].startStation)];
        assert segments == DropLastOfLoop(s0);
      } else if segment == segments[n - 1] {
        removed := segments[n - 1];
        segments := segments[..n - 1];
      } else {
        segments := segments[counter - 1 := segments[counter - 1].(endStation := segments[counter + 1].startStation)];
        segments := segments[counter + 1 := segments[counter + 1].(startStation := segments[counter - 1].endStation)];
        removed := segments[counter];
        segments := segments[..counter] + segments[counter + 1..];
        assert segments == DropInner(s0, counter);
      }
    }
  }

  /** `Line::new`: bumps the caller's counter and takes the new value as the
      line id; the line starts empty, not looping, without start or end
      segment. */
  method NewLine(id: u32, name: string) returns (line: Line, id': u32)
    ensures fresh(line)
    ensures id' == Inc32(id) && line.id == id' && line.name == name
    ensures line.segments == [] && !line.looping
    ensures line.startSegment == None && line.endSegment == None
  {
    id' := Inc32(id);
    line := new Line(id', name);
  }

  /** Three segments with ids 1, 2, 3 on a line that does not loop, travelling
      forward from segment 2: the written code answers 2 (the second segment,
      itself), the intended one answers 3. */
  method NextSegmentDiscrepancy() returns (asWritten: u32, intended: u32)
    ensures asWritten == 2 && intended == 3
  {
    var line := new Line(1, "S1");
    line.segments := [Route(1, "S1", 10, 20), Route(2, "S1", 20, 30), Route(3, "S1", 30, 40)];
    assert FindSegment(line.segments, 2) == Some(1) by {
      assert line.segments[1..][0].id == 2;
    }
    var turn;
    asWritten, turn := line.GetNextSegment(2, true);
    intended, turn := line.GetNextSegmentIntended(2, true);
  }

  /** A loop of segments 1, 2, 3, travelling backward from segment 1: the
      written code answers 2 (the second segment), the intended one answers 3
      (the last segment, which precedes the first on a loop); neither turns. */
  method LoopNextSegmentDiscrepancy() returns (asWritten: u32, intended: u32)
    ensures asWritten == 2 && intended == 3
  {
    var line := new Line(1, "S1");
    line.segments := [Route(1, "S1", 10, 20), Route(2, "S1", 20, 30), Route(3, "S1", 30, 10)];
    line.looping := true;
    assert FindSegment(line.segments, 1) == Some(0);
    var turn;
    asWritten, turn := line.GetNextSegment(1, false);
    intended, turn := line.GetNextSegmentIntended(1, false);
  }
}
