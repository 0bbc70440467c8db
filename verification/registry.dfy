/** What createSlide and createGroup build from a table row, and the registries
    initSlides and initGroups build from a whole table when some components
    may fail to load. */
module Registry {
  import opened Types

  /** The targetScale a slide or group has before the first scale update. */
  const UnsetScale: real := 0.0

  /** Every slide row names a skin that exists. */
  predicate DevicesValid(ps: seq<SlideDescriptor>, skins: seq<Skin>)
  {
    forall i :: 0 <= i < |ps| ==> 0 <= ps[i].device < |skins|
  }

  /** The slide createSlide makes from a row and its skin, given the uid. */
  function NewSlide(uid: int, d: SlideDescriptor, skin: Skin): (s: Slide)
    ensures s.uid == uid && s.gid == d.gid && s.device == d.device
    ensures s.width == skin.width && s.height == skin.height && s.scale == skin.scale
    ensures s.x + s.width / 2.0 == d.x && s.y + s.height / 2.0 == d.y
  {
    Slide(uid, d.gid, d.device, d.x - skin.width / 2.0, d.y - skin.height / 2.0,
          skin.width, skin.height, skin.scale, UnsetScale)
  }

  /** The group createGroup makes from a row, given the uid. */
  function NewGroup(uid: int, d: GroupDescriptor): (g: Group)
    ensures g.uid == uid && g.x == d.x && g.y == d.y && g.width == d.width && g.height == d.height
  {
    Group(uid, d.x, d.y, d.width, d.height, UnsetScale)
  }

  /** The slide registry after one createSlide per row, where `ready[i]` says
      whether the component for row `i` loaded. */
  function BuiltSlides(ps: seq<SlideDescriptor>, ready: seq<bool>, skins: seq<Skin>): (objs: seq<Slide>)
    requires |ready| == |ps| && DevicesValid(ps, skins)
    ensures SlidesPositional(objs) && |objs| <= |ps|
  {
    if |ps| == 0 then []
    else
      var n := |ps| - 1;
      var prev := BuiltSlides(ps[..n], ready[..n], skins);
      if ready[n] then prev + [NewSlide(|prev|, ps[n], skins[ps[n].device])] else prev
  }

  /** The group registry after one createGroup per row. */
  function BuiltGroups(gps: seq<GroupDescriptor>, ready: seq<bool>): (gs: seq<Group>)
    requires |ready| == |gps|
    ensures GroupsPositional(gs) && |gs| <= |gps|
  {
    if |gps| == 0 then []
    else
      var n := |gps| - 1;
      var prev := BuiltGroups(gps[..n], ready[..n]);
      if ready[n] then prev + [NewGroup(|prev|, gps[n])] else prev
  }

  /** When every component loads, slide `i` is made from row `i`. */
  lemma {:induction false} AllReadySlides(ps: seq<SlideDescriptor>, ready: seq<bool>, skins: seq<Skin>)
    requires |ready| == |ps| && DevicesValid(ps, skins)
    requires forall i :: 0 <= i < |ready| ==> ready[i]
    ensures var objs := BuiltSlides(ps, ready, skins);
            |objs| == |ps| && forall i :: 0 <= i < |ps| ==> objs[i] == NewSlide(i, ps[i], skins[ps[i].device])
  {
    if |ps| > 0 {
      var n := |ps| - 1;
      AllReadySlides(ps[..n], ready[..n], skins);
    }
  }

  /** When every component loads, group `i` is made from row `i`. */
  lemma {:induction false} AllReadyGroups(gps: seq<GroupDescriptor>, ready: seq<bool>)
    requires |ready| == |gps|
    requires forall i :: 0 <= i < |ready| ==> ready[i]
    ensures var gs := BuiltGroups(gps, ready);
            |gs| == |gps| && forall i :: 0 <= i < |gps| ==> gs[i] == NewGroup(i, gps[i])
  {
    if |gps| > 0 {
      var n := |gps| - 1;
      AllReadyGroups(gps[..n], ready[..n]);
    }
  }
}
