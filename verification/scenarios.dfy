/**
 * Concrete scenarios of the renderer on small molecules, proved as lemmas.
 */
module Scenarios {
  import opened Sorting
  import opened Atoms
  import opened Comparators
  import opened MoleculeRenderer

  const Black := Color(0, 0, 0)
  const Red := Color(255, 0, 0)

  /** A carbon atom with the larger z (further back, by the comparator's comment) and an oxygen atom, read in that order. */
  const Carbon := Atom(0, 0, 0, 10, Black, 77.0)
  const Oxygen := Atom(1, 0, 0, -10, Red, 66.0)

  /**
   * Reading the file orders the atoms by ascending z, so the oxygen atom
   * (z = -10) comes first; FromBack orders them by descending z.
   */
  lemma ReadThenBack(g: Geometry)
    ensures Step(Initial, Read(Loaded([Carbon, Oxygen])), g).molecule == [Oxygen, Carbon]
    ensures Step(Step(Initial, Read(Loaded([Carbon, Oxygen])), g), FromBack, g).molecule == [Carbon, Oxygen]
    ensures Step(Step(Initial, Read(Loaded([Carbon, Oxygen])), g), FromBack, g).angleHor == -180
  {
    var read := Step(Initial, Read(Loaded([Carbon, Oxygen])), g);
    assert [Carbon, Oxygen][..1] == [Carbon];
    assert Sort(BackToFront, [Carbon]) == [Carbon];
    assert read.molecule == Insert(BackToFront, [Carbon], Oxygen);
    assert [Oxygen, Carbon][..1] == [Oxygen];
    assert Sort(FrontToBack, [Oxygen]) == [Oxygen];
    assert Insert(FrontToBack, [], Carbon) == [Carbon];
  }

  /** Two atoms of different elements at the same point (5, 5, 5). */
  const First := Atom(0, 5, 5, 5, Black, 77.0)
  const Second := Atom(1, 5, 5, 5, Red, 66.0)

  /** Whatever axis view is chosen, atoms at the same point stay in load order. */
  lemma SamePointKeepsLoadOrder(st: Renderer, c: Command, g: Geometry)
    requires c.SortsByAxis()
    requires Input(st, c) == [First, Second]
    ensures Step(st, c, g).molecule == [First, Second]
  {
    AxisStepSorts(st, c, g);
    SamePlaceTies(First, Second);
    SamePlaceTies(Second, First);
    assert SortedBy(AxisComparator(c), [First, Second]);
    SortOfSorted(AxisComparator(c), [First, Second]);
  }

  /** After reading a molecule, 72 PanRight presses leave the view one full turn on. */
  lemma ReadThenFullTurn(g: Geometry, atoms: seq<Atom>)
    ensures Repeat(Step(Initial, Read(Loaded(atoms)), g), PanRight, g, 72).angleHor == 360
    ensures Repeat(Step(Initial, Read(Loaded(atoms)), g), PanRight, g, 72).angleVer == 0
    ensures multiset(Repeat(Step(Initial, Read(Loaded(atoms)), g), PanRight, g, 72).molecule) == multiset(atoms)
  {
    var read := Step(Initial, Read(Loaded(atoms)), g);
    FullTurn(read, g);
    RepeatIncrement(read, PanRight, g, 72);
  }

  /** A caption with no branch in buttonPerformed changes nothing. */
  lemma UnknownCaption(st: Renderer, g: Geometry, file: LoadOutcome)
    ensures Dispatch("Zoom", file) == Unknown
    ensures Step(st, Dispatch("Zoom", file), g) == st
  {
  }
}
