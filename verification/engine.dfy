/** The navigation engine's module-level state, as one object: the static
    tables it was configured with, the two registries, the two cursors, and a
    log of the content hooks it has called on slides. */
module EngineState {
  import opened Types
  import opened Cursor
  import opened Scan
  import opened Geometry
  import opened Registry

  class Engine {
    const positions: seq<SlideDescriptor>
    const groupPositions: seq<GroupDescriptor>
    const skins: seq<Skin>
    const navigationList: seq<int>
    const groupNavigationList: seq<int>

    var objects: seq<Slide>
    var groups: seq<Group>
    var currentDemoIndex: int
    var currentGroupIndex: int

    /** The loadDemo/releaseDemo calls made so far, oldest first. */
    ghost var log: seq<Hook>

    /** Uids are positional, and the registries never outgrow the tables they
        are built from (selectTarget and selectGroup read the tables at the
        matched position). */
    ghost predicate Valid()
      reads this
    {
      DevicesValid(positions, skins) &&
      SlidesPositional(objects) && |objects| <= |positions| &&
      GroupsPositional(groups) && |groups| <= |groupPositions|
    }

    /** The slide navigation list orders exactly the slides that exist. */
    predicate SlideOrderIsPermutation()
      reads this
    {
      IsPermutation(navigationList, |objects|)
    }

    /** The group navigation list orders exactly the groups that exist. */
    predicate GroupOrderIsPermutation()
      reads this
    {
      IsPermutation(groupNavigationList, |groups|)
    }

    constructor (positions: seq<SlideDescriptor>, groupPositions: seq<GroupDescriptor>, skins: seq<Skin>,
                 navigationList: seq<int>, groupNavigationList: seq<int>)
      requires DevicesValid(positions, skins)
      ensures Valid()
      ensures this.positions == positions && this.groupPositions == groupPositions && this.skins == skins
      ensures this.navigationList == navigationList && this.groupNavigationList == groupNavigationList
      ensures objects == [] && groups == [] && currentDemoIndex == -1 && currentGroupIndex == -1 && log == []
    {
      this.positions := positions;
      this.groupPositions := groupPositions;
      this.skins := skins;
      this.navigationList := navigationList;
      this.groupNavigationList := groupNavigationList;
      objects, groups := [], [];
      currentDemoIndex, currentGroupIndex := -1, -1;
      log := [];
    }

    /** createSlide: append a slide whose uid is the registry length, or
        nothing when the component is not ready. */
    method CreateSlide(x: real, y: real, gid: int, device: int, ready: bool)
      requires Valid() && 0 <= device < |skins|
      requires ready ==> |objects| < |positions|
      modifies this`objects
      ensures Valid()
      ensures objects == if ready then old(objects) + [NewSlide(|old(objects)|, SlideDescriptor(x, y, gid, device), skins[device])]
                         else old(objects)
    {
      if ready {
        var slide := NewSlide(|objects|, SlideDescriptor(x, y, gid, device), skins[device]);
        objects := objects + [slide];
      }
    }

    /** initSlides: one createSlide per row of the slide table. */
    method InitSlides(ready: seq<bool>)
      requires Valid() && objects == [] && |ready| == |positions|
      modifies this`objects
      ensures Valid() && objects == BuiltSlides(positions, ready, skins)
    {
      var i := 0;
      while i < |positions|
        invariant 0 <= i <= |positions|
        invariant Valid()
        invariant objects == BuiltSlides(positions[..i], ready[..i], skins)
      {
        assert positions[..i + 1][..i] == positions[..i] && ready[..i + 1][..i] == ready[..i];
        var d := positions[i];
        CreateSlide(d.x, d.y, d.gid, d.device, ready[i]);
        i := i + 1;
      }
      assert positions[..i] == positions && ready[..i] == ready;
    }

    /** createGroup: append a group whose uid is the registry length, or
        nothing when the component is not ready. */
    method CreateGroup(x: real, y: real, width: real, height: real, ready: bool)
      requires Valid()
      requires ready ==> |groups| < |groupPositions|
      modifies this`groups
      ensures Valid()
      ensures groups == if ready then old(groups) + [NewGroup(|old(groups)|, GroupDescriptor(x, y, width, height))]
                        else old(groups)
    {
      if ready {
        var group := NewGroup(|groups|, GroupDescriptor(x, y, width, height));
        groups := groups + [group];
      }
    }

    /** initGroups: one createGroup per row of the group table. */
    method InitGroups(ready: seq<bool>)
      requires Valid() && groups == [] && |ready| == |groupPositions|
      modifies this`groups
      ensures Valid() && groups == BuiltGroups(groupPositions, ready)
    {
      var i := 0;
      while i < |groupPositions|
        invariant 0 <= i <= |groupPositions|
        invariant Valid()
        invariant groups == BuiltGroups(groupPositions[..i], ready[..i])
      {
        assert groupPositions[..i + 1][..i] == groupPositions[..i] && ready[..i + 1][..i] == ready[..i];
        var d := groupPositions[i];
        CreateGroup(d.x, d.y, d.width, d.height, ready[i]);
        i := i + 1;
      }
      assert groupPositions[..i] == groupPositions && ready[..i] == ready;
    }

    /** loadCurrentDemo: when the cursor is on a slide, load the slide the
        navigation list names there, exactly once. */
    method LoadCurrentDemo()
      requires Valid()
      requires 0 <= currentDemoIndex < |objects| ==> 0 <= Lookup(navigationList, currentDemoIndex) < |objects|
      modifies this`log
      ensures log == old(log) + if 0 <= currentDemoIndex < |objects|
                                then [Loaded(navigationList[currentDemoIndex])] else []
    {
      if currentDemoIndex != -1 {
        var i := 0;
        while i < |objects|
          invariant 0 <= i <= |objects|
          invariant log == old(log) + if 0 <= currentDemoIndex < i then [Loaded(navigationList[currentDemoIndex])] else []
        {
          if currentDemoIndex == i {
            log := log + [Loaded(navigationList[currentDemoIndex])];
          }
          i := i + 1;
        }
      }
    }

    /** releaseDemos: release every slide, in registry order. */
    method ReleaseDemos()
      modifies this`log
      ensures log == old(log) + ReleaseRange(0, |objects|)
    {
      var i := 0;
      while i < |objects|
        invariant 0 <= i <= |objects|
        invariant log == old(log) + ReleaseRange(0, i)
      {
        log := log + [Released(i)];
        i := i + 1;
      }
    }

    /** selectTarget: release every slide that does not match `uid`; on a match,
        move both cursors to it and return its table position at slide zoom. */
    method SelectTarget(uid: int) returns (r: Option<Target>)
      requires Valid()
      modifies this`currentDemoIndex, this`currentGroupIndex, this`log
      ensures log == old(log) + Releases(objects, uid)
      ensures var m := LastMatch(objects, uid);
              if m == -1 then
                r == None && currentDemoIndex == old(currentDemoIndex) && currentGroupIndex == old(currentGroupIndex)
              else
                r == Some(Target(positions[m].x, positions[m].y, objects[m].targetScale, SlideZoom)) &&
                currentDemoIndex == IndexOf(navigationList, m) && currentGroupIndex == objects[m].gid
    {
      var idx := -1;
      var i := 0;
      while i < |objects|
        invariant 0 <= i <= |objects|
        invariant idx == LastMatch(objects[..i], uid)
        invariant log == old(log) + Releases(objects[..i], uid)
        invariant currentDemoIndex == old(currentDemoIndex) && currentGroupIndex == old(currentGroupIndex)
      {
        ghost var prefix := objects[..i + 1];
        assert prefix[..i] == objects[..i] && prefix[i] == objects[i];
        if uid >= 0 && objects[i].uid == uid {
          assert LastMatch(prefix, uid) == i;
          assert Releases(prefix, uid) == Releases(objects[..i], uid);
          idx := i;
        } else {
          assert LastMatch(prefix, uid) == idx;
          assert Releases(prefix, uid) == Releases(objects[..i], uid) + [Released(i)];
          log := log + [Released(i)];
        }
        i := i + 1;
      }
      assert objects[..i] == objects;
      if idx != -1 {
        currentDemoIndex := IndexOf(navigationList, idx);
        currentGroupIndex := objects[idx].gid;
        return Some(Target(positions[idx].x, positions[idx].y, objects[idx].targetScale, SlideZoom));
      }
      return None;
    }

    /** With a permutation for navigation order, resolving the slide listed at
        an in-range cursor puts the cursor back where it was, returns a target,
        and releases every other slide. */
    lemma ResolvesInPlace(c: int)
      requires Valid() && SlideOrderIsPermutation() && 0 <= c < |objects|
      ensures var m := LastMatch(objects, navigationList[c]);
              m == navigationList[c] && IndexOf(navigationList, m) == c &&
              Releases(objects, navigationList[c]) == ReleaseRange(0, m) + ReleaseRange(m + 1, |objects|)
    {
      LastMatchPositional(objects, navigationList[c]);
      IndexOfPermutation(navigationList, |objects|, c);
      ReleasesPositional(objects, navigationList[c]);
    }

    /** getCurrent: resolve the slide at the cursor, or return null without
        any effect when the cursor is out of range. */
    method GetCurrent() returns (r: Option<Target>)
      requires Valid()
      modifies this`currentDemoIndex, this`currentGroupIndex, this`log
      ensures old(currentDemoIndex) < 0 || old(currentDemoIndex) >= |objects| ==>
                r == None && currentDemoIndex == old(currentDemoIndex) &&
                currentGroupIndex == old(currentGroupIndex) && log == old(log)
      ensures 0 <= old(currentDemoIndex) < |objects| ==>
                var u := Lookup(navigationList, old(currentDemoIndex));
                var m := LastMatch(objects, u);
                log == old(log) + Releases(objects, u) &&
                if m == -1 then
                  r == None && currentDemoIndex == old(currentDemoIndex) && currentGroupIndex == old(currentGroupIndex)
                else
                  r == Some(Target(positions[m].x, positions[m].y, objects[m].targetScale, SlideZoom)) &&
                  currentDemoIndex == IndexOf(navigationList, m) && currentGroupIndex == objects[m].gid
      ensures SlideOrderIsPermutation() && 0 <= old(currentDemoIndex) < |objects| ==>
                r.Some? && currentDemoIndex == old(currentDemoIndex)
    {
      if currentDemoIndex < 0 || currentDemoIndex >= |objects| {
        return None;
      }
      if SlideOrderIsPermutation() {
        ResolvesInPlace(currentDemoIndex);
      }
      r := SelectTarget(Lookup(navigationList, currentDemoIndex));
    }

    /** getNext: step the cursor forward cyclically, then resolve the slide
        listed there. */
    method GetNext() returns (r: Option<Target>)
      requires Valid()
      modifies this`currentDemoIndex, this`currentGroupIndex, this`log
      ensures var c := Next(old(currentDemoIndex), |objects|);
              var u := Lookup(navigationList, c);
              var m := LastMatch(objects, u);
              log == old(log) + Releases(objects, u) &&
              if m == -1 then
                r == None && currentDemoIndex == c && currentGroupIndex == old(currentGroupIndex)
              else
                r == Some(Target(positions[m].x, positions[m].y, objects[m].targetScale, SlideZoom)) &&
                currentDemoIndex == IndexOf(navigationList, m) && currentGroupIndex == objects[m].gid
      ensures SlideOrderIsPermutation() && |objects| > 0 && old(currentDemoIndex) >= -1 ==>
                r.Some? && currentDemoIndex == Next(old(currentDemoIndex), |objects|)
    {
      currentDemoIndex := currentDemoIndex + 1;
      if currentDemoIndex >= |objects| {
        currentDemoIndex := 0;
      }
      assert currentDemoIndex == Next(old(currentDemoIndex), |objects|);
      if SlideOrderIsPermutation() && 0 <= currentDemoIndex < |objects| {
        ResolvesInPlace(currentDemoIndex);
      }
      r := SelectTarget(Lookup(navigationList, currentDemoIndex));
    }

    /** getNext followed by getPrevious: with a permutation as navigation
        order, the slide cursor comes back to where it was, and the second call
        resolves the slide the cursor started on. */
    method NextThenPrevious() returns (r: Option<Target>)
      requires Valid() && SlideOrderIsPermutation() && 0 <= currentDemoIndex < |objects|
      modifies this`currentDemoIndex, this`currentGroupIndex, this`log
      ensures currentDemoIndex == old(currentDemoIndex)
      ensures var m := navigationList[old(currentDemoIndex)];
              r == Some(Target(positions[m].x, positions[m].y, objects[m].targetScale, SlideZoom))
    {
      ghost var start := currentDemoIndex;
      var _ := GetNext();
      r := GetPrevious();
      PrevUndoesNext(start, |objects|);
      ResolvesInPlace(start);
    }

    /** |objects| successive getNext calls: with a permutation as navigation
        order, the slide cursor comes back to where it started. */
    method NextAroundTheList()
      requires Valid() && SlideOrderIsPermutation() && 0 <= currentDemoIndex < |objects|
      modifies this`currentDemoIndex, this`currentGroupIndex, this`log
      ensures currentDemoIndex == old(currentDemoIndex)
    {
      ghost var start := currentDemoIndex;
      var k := 0;
      while k < |objects|
        invariant 0 <= k <= |objects|
        invariant 0 <= currentDemoIndex < |objects|
        invariant currentDemoIndex == Advance(start, k, |objects|)
      {
        var _ := GetNext();
        k := k + 1;
      }
      FullCycle(start, |objects|);
    }

    /** getPrevious: step the cursor back cyclically, then resolve the slide
        listed there. */
    method GetPrevious() returns (r: Option<Target>)
      requires Valid()
      modifies this`currentDemoIndex, this`currentGroupIndex, this`log
      ensures var c := Prev(old(currentDemoIndex), |objects|);
              var u := Lookup(navigationList, c);
              var m := LastMatch(objects, u);
              log == old(log) + Releases(objects, u) &&
              if m == -1 then
                r == None && currentDemoIndex == c && currentGroupIndex == old(currentGroupIndex)
              else
                r == Some(Target(positions[m].x, positions[m].y, objects[m].targetScale, SlideZoom)) &&
                currentDemoIndex == IndexOf(navigationList, m) && currentGroupIndex == objects[m].gid
      ensures SlideOrderIsPermutation() && |objects| > 0 && old(currentDemoIndex) <= |objects| ==>
                r.Some? && currentDemoIndex == Prev(old(currentDemoIndex), |objects|)
    {
      currentDemoIndex := currentDemoIndex - 1;
      if currentDemoIndex < 0 {
        currentDemoIndex := |objects| - 1;
      }
      assert currentDemoIndex == Prev(old(currentDemoIndex), |objects|);
      if SlideOrderIsPermutation() && 0 <= currentDemoIndex < |objects| {
        ResolvesInPlace(currentDemoIndex);
      }
      r := SelectTarget(Lookup(navigationList, currentDemoIndex));
    }

    /** selectGroup: find the first group whose uid is `id`; on a match, move
        the group cursor to it and return its table centre at group zoom. */
    method SelectGroup(id: int) returns (r: Option<Target>)
      requires Valid()
      modifies this`currentGroupIndex
      ensures var m := FirstMatch(groups, id);
              if m == -1 then
                r == None && currentGroupIndex == old(currentGroupIndex)
              else
                r == Some(Target(groupPositions[m].x + groupPositions[m].width / 2.0,
                                 groupPositions[m].y + groupPositions[m].height / 2.0,
                                 groups[m].targetScale, GroupZoom)) &&
                currentGroupIndex == IndexOf(groupNavigationList, m)
    {
      var idx := -1;
      var i := 0;
      while i < |groups|
        invariant 0 <= i <= |groups|
        invariant forall j :: 0 <= j < i ==> !GroupMatches(groups[j], id)
      {
        if id >= 0 && groups[i].uid == id {
          idx := i;
          break;
        }
        i := i + 1;
      }
      if idx != -1 {
        currentGroupIndex := IndexOf(groupNavigationList, idx);
        var d := groupPositions[idx];
        return Some(Target(d.x + d.width / 2.0, d.y + d.height / 2.0, groups[idx].targetScale, GroupZoom));
      }
      return None;
    }

    /** With a permutation for group order, resolving the group listed at an
        in-range cursor puts the cursor back where it was and returns a target. */
    lemma GroupResolvesInPlace(c: int)
      requires Valid() && GroupOrderIsPermutation() && 0 <= c < |groups|
      ensures var m := FirstMatch(groups, groupNavigationList[c]);
              m == groupNavigationList[c] && IndexOf(groupNavigationList, m) == c
    {
      FirstMatchPositional(groups, groupNavigationList[c]);
      IndexOfPermutation(groupNavigationList, |groups|, c);
    }

    /** getCurrentGroup: resolve the group at the cursor, or return null
        without any effect when the cursor is out of range. */
    method GetCurrentGroup() returns (r: Option<Target>)
      requires Valid()
      modifies this`currentGroupIndex
      ensures old(currentGroupIndex) < 0 || old(currentGroupIndex) >= |groups| ==>
                r == None && currentGroupIndex == old(currentGroupIndex)
      ensures 0 <= old(currentGroupIndex) < |groups| ==>
                var m := FirstMatch(groups, Lookup(groupNavigationList, old(currentGroupIndex)));
                if m == -1 then
                  r == None && currentGroupIndex == old(currentGroupIndex)
                else
                  r == Some(Target(groupPositions[m].x + groupPositions[m].width / 2.0,
                                   groupPositions[m].y + groupPositions[m].height / 2.0,
                                   groups[m].targetScale, GroupZoom)) &&
                  currentGroupIndex == IndexOf(groupNavigationList, m)
      ensures GroupOrderIsPermutation() && 0 <= old(currentGroupIndex) < |groups| ==>
                r.Some? && currentGroupIndex == old(currentGroupIndex)
    {
      if currentGroupIndex < 0 || currentGroupIndex >= |groups| {
        return None;
      }
      if GroupOrderIsPermutation() {
        GroupResolvesInPlace(currentGroupIndex);
      }
      r := SelectGroup(Lookup(groupNavigationList, currentGroupIndex));
    }

    /** getNextGroup: step the group cursor forward cyclically, then resolve
        the group listed there. */
    method GetNextGroup() returns (r: Option<Target>)
      requires Valid()
      modifies this`currentGroupIndex
      ensures var c := Next(old(currentGroupIndex), |groups|);
              var m := FirstMatch(groups, Lookup(groupNavigationList, c));
              if m == -1 then
                r == None && currentGroupIndex == c
              else
                r == Some(Target(groupPositions[m].x + groupPositions[m].width / 2.0,
                                 groupPositions[m].y + groupPositions[m].height / 2.0,
                                 groups[m].targetScale, GroupZoom)) &&
                currentGroupIndex == IndexOf(groupNavigationList, m)
      ensures GroupOrderIsPermutation() && |groups| > 0 && old(currentGroupIndex) >= -1 ==>
                r.Some? && currentGroupIndex == Next(old(currentGroupIndex), |groups|)
    {
      currentGroupIndex := currentGroupIndex + 1;
      if currentGroupIndex >= |groups| {
        currentGroupIndex := 0;
      }
      assert currentGroupIndex == Next(old(currentGroupIndex), |groups|);
      if GroupOrderIsPermutation() && 0 <= currentGroupIndex < |groups| {
        GroupResolvesInPlace(currentGroupIndex);
      }
      r := SelectGroup(Lookup(groupNavigationList, currentGroupIndex));
    }

    /** getPreviousGroup: step the group cursor back cyclically, then resolve
        the group listed there. */
    method GetPreviousGroup() returns (r: Option<Target>)
      requires Valid()
      modifies this`currentGroupIndex
      ensures var c := Prev(old(currentGroupIndex), |groups|);
              var m := FirstMatch(groups, Lookup(groupNavigationList, c));
              if m == -1 then
                r == None && currentGroupIndex == c
              else
                r == Some(Target(groupPositions[m].x + groupPositions[m].width / 2.0,
                                 groupPositions[m].y + groupPositions[m].height / 2.0,
                                 groups[m].targetScale, GroupZoom)) &&
                currentGroupIndex == IndexOf(groupNavigationList, m)
      ensures GroupOrderIsPermutation() && |groups| > 0 && old(currentGroupIndex) <= |groups| ==>
                r.Some? && currentGroupIndex == Prev(old(currentGroupIndex), |groups|)
    {
      currentGroupIndex := currentGroupIndex - 1;
      if currentGroupIndex < 0 {
        currentGroupIndex := |groups| - 1;
      }
      assert currentGroupIndex == Prev(old(currentGroupIndex), |groups|);
      if GroupOrderIsPermutation() && 0 <= currentGroupIndex < |groups| {
        GroupResolvesInPlace(currentGroupIndex);
      }
      r := SelectGroup(Lookup(groupNavigationList, currentGroupIndex));
    }

    /** boundingBox, as written: the box its loop reports over all slides. */
    method BoundingBox() returns (b: Box)
      ensures b == BoxOf(Accumulate(objects))
      ensures b.width >= 0.0 && b.height >= 0.0
      ensures b.x <= 0.0 <= b.x + b.width && b.y <= 0.0 <= b.y + b.height
      ensures b.centerX == b.x + b.width / 2.0 && b.centerY == b.y + b.height / 2.0
    {
      var minX, maxX, minY, maxY := 0.0, 0.0, 0.0, 0.0;
      var i := 0;
      while i < |objects|
        invariant 0 <= i <= |objects|
        invariant Extent(minX, maxX, minY, maxY) == Accumulate(objects[..i])
      {
        assert objects[..i + 1][..i] == objects[..i];
        var s := objects[i];
        var left, right, top, bottom := Left(s), Right(s), Top(s), Bottom(s);
        if left < minX {
          minX := left;
        } else if right > maxX {
          maxX := right;
        }
        if top < minY {
          minY := top;
        } else if bottom > maxY {
          maxY := bottom;
        }
        i := i + 1;
      }
      assert objects[..i] == objects;
      b := Box(minX, minY, maxX - minX, maxY - minY, (minX + maxX) / 2.0, (minY + maxY) / 2.0);
    }

    /** The corrected bounding box: four independent comparisons per slide, so
        that every slide's scaled extent lies inside it. */
    method CoveringBox() returns (b: Box)
      ensures b == BoxOf(Covering(objects))
      ensures forall i :: 0 <= i < |objects| ==>
                b.x <= Left(objects[i]) && Right(objects[i]) <= b.x + b.width &&
                b.y <= Top(objects[i]) && Bottom(objects[i]) <= b.y + b.height
    {
      var minX, maxX, minY, maxY := 0.0, 0.0, 0.0, 0.0;
      var i := 0;
      while i < |objects|
        invariant 0 <= i <= |objects|
        invariant Extent(minX, maxX, minY, maxY) == Covering(objects[..i])
      {
        assert objects[..i + 1][..i] == objects[..i];
        var s := objects[i];
        if Left(s) < minX { minX := Left(s); }
        if Right(s) > maxX { maxX := Right(s); }
        if Top(s) < minY { minY := Top(s); }
        if Bottom(s) > maxY { maxY := Bottom(s); }
        i := i + 1;
      }
      assert objects[..i] == objects;
      b := Box(minX, minY, maxX - minX, maxY - minY, (minX + maxX) / 2.0, (minY + maxY) / 2.0);
    }

    /** updateObjectScales: give every slide the contain scale of its target
        size (`targetWidths[i]`, `targetHeights[i]`, what slide `i` reports) into
        the destination box, and change nothing else. */
    method UpdateObjectScales(destWidth: real, destHeight: real, targetWidths: seq<real>, targetHeights: seq<real>)
      requires Valid()
      requires |targetWidths| == |objects| && |targetHeights| == |objects|
      requires forall i :: 0 <= i < |objects| ==> targetWidths[i] > 0.0 && targetHeights[i] > 0.0
      modifies this`objects
      ensures Valid() && |objects| == |old(objects)|
      ensures forall i :: 0 <= i < |objects| ==>
                objects[i] == old(objects)[i].(targetScale := ScaleToBox(destWidth, destHeight, targetWidths[i], targetHeights[i]))
    {
      var i := 0;
      while i < |objects|
        invariant 0 <= i <= |objects| == |old(objects)|
        invariant forall k :: 0 <= k < i ==>
                    objects[k] == old(objects)[k].(targetScale := ScaleToBox(destWidth, destHeight, targetWidths[k], targetHeights[k]))
        invariant forall k :: i <= k < |objects| ==> objects[k] == old(objects)[k]
      {
        objects := objects[i := objects[i].(targetScale := ScaleToBox(destWidth, destHeight, targetWidths[i], targetHeights[i]))];
        i := i + 1;
      }
    }

    /** updateGroupScales: give every group the contain scale of its own size
        into the destination box, and change nothing else. */
    method UpdateGroupScales(destWidth: real, destHeight: real)
      requires Valid()
      requires forall i :: 0 <= i < |groups| ==> groups[i].width > 0.0 && groups[i].height > 0.0
      modifies this`groups
      ensures Valid() && |groups| == |old(groups)|
      ensures forall i :: 0 <= i < |groups| ==>
                groups[i] == old(groups)[i].(targetScale := ScaleToBox(destWidth, destHeight, old(groups)[i].width, old(groups)[i].height))
    {
      var i := 0;
      while i < |groups|
        invariant 0 <= i <= |groups| == |old(groups)|
        invariant forall k :: 0 <= k < i ==>
                    groups[k] == old(groups)[k].(targetScale := ScaleToBox(destWidth, destHeight, old(groups)[k].width, old(groups)[k].height))
        invariant forall k :: i <= k < |groups| ==> groups[k] == old(groups)[k]
      {
        groups := groups[i := groups[i].(targetScale := ScaleToBox(destWidth, destHeight, groups[i].width, groups[i].height))];
        i := i + 1;
      }
    }
  }
}
