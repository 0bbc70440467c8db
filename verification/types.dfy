/** Values of the demo-gallery navigation engine: rows of the static tables,
    the visual objects created from them, the targets handed to the view, and
    the content hooks the engine calls on slides. */
module Types {

  datatype Option<T> = None | Some(value: T)

  /** A row of the slide table: centre of the slide, its group and its skin. */
  datatype SlideDescriptor = SlideDescriptor(x: real, y: real, gid: int, device: int)

  /** A row of the group table: the group's rectangle. */
  datatype GroupDescriptor = GroupDescriptor(x: real, y: real, width: real, height: real)

  /** One column of the parallel skin tables (width, height and display scale of a device). */
  datatype Skin = Skin(width: real, height: real, scale: real)

  /** A created slide: `x`/`y` is its top-left corner, `targetScale` the fit-to-viewport scale. */
  datatype Slide = Slide(uid: int, gid: int, device: int, x: real, y: real,
                         width: real, height: real, scale: real, targetScale: real)

  /** A created group. */
  datatype Group = Group(uid: int, x: real, y: real, width: real, height: real, targetScale: real)

  /** What a navigation query hands back for the view to animate toward. */
  datatype Target = Target(x: real, y: real, targetScale: real, navState: int)

  /** A call of a slide's content hook, naming the slide by its registry position. */
  datatype Hook = Loaded(at: int) | Released(at: int)

  /** The two `navState` values: zoomed onto a group, or onto a single slide. */
  const GroupZoom: int := 1
  const SlideZoom: int := 2

  /** Every slide's uid is its position in the registry. */
  predicate SlidesPositional(objs: seq<Slide>)
  {
    forall i :: 0 <= i < |objs| ==> objs[i].uid == i
  }

  /** Every group's uid is its position in the registry. */
  predicate GroupsPositional(gs: seq<Group>)
  {
    forall i :: 0 <= i < |gs| ==> gs[i].uid == i
  }
}
