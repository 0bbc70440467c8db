/** The static tables the demo gallery ships with, and the facts the engine
    needs of them. Only the columns that affect navigation and layout are kept. */
module Config {
  import opened Types
  import opened Cursor
  import opened Scan
  import opened Registry

  const Positions: seq<SlideDescriptor> := [
    SlideDescriptor(-800.0, -1500.0, 0, 3),
    SlideDescriptor(-1800.0, -1400.0, 0, 6),
    SlideDescriptor(-1200.0, -1050.0, 0, 2),
    SlideDescriptor(1750.0, -1650.0, 1, 4),
    SlideDescriptor(1100.0, -1500.0, 1, 4),
    SlideDescriptor(900.0, -300.0, 2, 7),
    SlideDescriptor(-100.0, -100.0, 2, 4),
    SlideDescriptor(-1500.0, 0.0, 3, 1),
    SlideDescriptor(-2200.0, 100.0, 3, 1),
    SlideDescriptor(2200.0, 1100.0, 5, 6),
    SlideDescriptor(1000.0, 1280.0, 5, 5),
    SlideDescriptor(-400.0, 1000.0, 4, 0),
    SlideDescriptor(-1300.0, 1200.0, 4, 5),
    SlideDescriptor(-2100.0, 1450.0, 4, 2)
  ]

  const GroupPositions: seq<GroupDescriptor> := [
    GroupDescriptor(-2400.0, -1900.0, 2200.0, 1150.0),
    GroupDescriptor(600.0, -2000.0, 1700.0, 1000.0),
    GroupDescriptor(-600.0, -750.0, 2100.0, 1250.0),
    GroupDescriptor(-2600.0, -450.0, 1600.0, 1100.0),
    GroupDescriptor(-2400.0, 700.0, 2400.0, 1200.0),
    GroupDescriptor(500.0, 600.0, 2500.0, 1400.0)
  ]

  /** The widths, heights and scales tables, column by column. */
  const Skins: seq<Skin> := [
    Skin(300.0, 605.0, 1.0),
    Skin(360.0, 706.0, 0.8),
    Skin(366.0, 720.0, 0.6),
    Skin(758.0, 564.0, 0.9),
    Skin(600.0, 488.0, 1.0),
    Skin(918.0, 600.0, 0.9),
    Skin(923.0, 600.0, 1.0),
    Skin(800.0, 638.0, 1.0)
  ]

  const NavigationList: seq<int> := [1, 2, 0, 4, 3, 5, 6, 7, 8, 13, 12, 11, 10, 9]
  const GroupNavigationList: seq<int> := [0, 1, 2, 3, 4, 5]

  /** Every slide names an existing skin, and both navigation lists are
      permutations of their full tables. */
  lemma TablesAreWellFormed()
    ensures DevicesValid(Positions, Skins)
    ensures IsPermutation(NavigationList, |Positions|)
    ensures IsPermutation(GroupNavigationList, |GroupPositions|)
  {
  }

  /** With every component loaded, the first step forward from the unselected
      cursor selects the second slide created (the one at position 1). */
  lemma FirstStepSelectsSecondSlide(ready: seq<bool>)
    requires |ready| == |Positions| && forall i :: 0 <= i < |ready| ==> ready[i]
    ensures var objs := BuiltSlides(Positions, ready, Skins);
            LastMatch(objs, Lookup(NavigationList, Next(-1, |objs|))) == 1
  {
    TablesAreWellFormed();
    AllReadySlides(Positions, ready, Skins);
    var objs := BuiltSlides(Positions, ready, Skins);
    LastMatchPositional(objs, 1);
  }
}
