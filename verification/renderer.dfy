/**
 * The view state of MoleculeRenderer and what each button press does to it:
 * set or step the two viewing angles, re-sort the atoms into painting order,
 * or grow and shrink every atom.
 */
module MoleculeRenderer {
  import opened Sorting
  import opened Atoms
  import opened Comparators

  /** panStep: the degrees one pan or tilt press turns the view by. */
  const PanStep: int := 5

  /** The radius change of one zoom press. */
  const ZoomStep: real := 15.0

  /** What choosing and reading a molecule file gave: its atoms, or a file that could not be opened. */
  datatype LoadOutcome = Loaded(atoms: seq<Atom>) | OpenFailed

  /** A button press. Read carries what reading the chosen file gave. */
  datatype Command =
    | Read(file: LoadOutcome)
    | FromFront | FromBack | FromLeft | FromRight | FromTop | FromBottom
    | PanRight | PanLeft | TiltTop | TiltBottom
    | ZoomIn | ZoomOut
    | Unknown
  {
    /** A button that jumps to one of the six axis-aligned viewpoints. */
    predicate IsAxis() {
      FromFront? || FromBack? || FromLeft? || FromRight? || FromTop? || FromBottom?
    }

    /** A button that re-sorts the atoms by one coordinate: an axis view or Read. */
    predicate SortsByAxis() {
      Read? || IsAxis()
    }

    /** A button that steps one angle by panStep. */
    predicate IsIncrement() {
      PanRight? || PanLeft? || TiltTop? || TiltBottom?
    }

    /** How far n presses turn the horizontal angle: panStep each to the right, -panStep each to the left. */
    function HorTurn(n: nat): int {
      if PanRight? then n * PanStep else if PanLeft? then -(n * PanStep) else 0
    }

    /** How far n presses turn the vertical angle: panStep each for TiltTop, -panStep each for TiltBottom. */
    function VerTurn(n: nat): int {
      if TiltTop? then n * PanStep else if TiltBottom? then -(n * PanStep) else 0
    }

    /** A button that re-sorts the atoms: Read, an axis view, or a pan or tilt step. */
    predicate Reorders() {
      SortsByAxis() || IsIncrement()
    }

    predicate IsZoom() {
      ZoomIn? || ZoomOut?
    }
  }

  /**
   * The fields of MoleculeRenderer that the buttons act on: the two viewing
   * angles in degrees, the last zoom factor and the list of atoms in
   * painting order.
   */
  datatype Renderer = Renderer(angleHor: int, angleVer: int, zoomFactor: real, molecule: seq<Atom>)

  /** A freshly constructed renderer; the empty list stands for Java's not-yet-read null. */
  const Initial: Renderer := Renderer(0, 0, 0.0, [])

  /** The caption of each button. */
  function Label(c: Command): string {
    match c
    case Read(_) => "Read"
    case FromFront => "FromFront"
    case FromBack => "FromBack"
    case FromLeft => "FromLeft"
    case FromRight => "FromRight"
    case FromTop => "FromTop"
    case FromBottom => "FromBottom"
    case PanRight => "PanRight"
    case PanLeft => "PanLeft"
    case TiltTop => "TiltTop"
    case TiltBottom => "TiltBottom"
    case ZoomIn => "ZoomIn"
    case ZoomOut => "ZoomOut"
    case Unknown => ""
  }

  /** The captions buttonPerformed responds to. */
  const Labels: set<string> := {
    "Read", "FromFront", "FromBack", "FromLeft", "FromRight", "FromTop", "FromBottom",
    "PanRight", "PanLeft", "TiltTop", "TiltBottom", "ZoomIn", "ZoomOut"
  }

  /** The if-chain of buttonPerformed: which branch a caption selects. */
  function Dispatch(button: string, file: LoadOutcome): (c: Command)
    ensures c == Unknown <==> button !in Labels
    ensures c != Unknown ==> Label(c) == button
    ensures c.Read? ==> c.file == file
  {
    if button == "Read" then Read(file)
    else if button == "FromFront" then FromFront
    else if button == "FromBack" then FromBack
    else if button == "FromLeft" then FromLeft
    else if button == "FromRight" then FromRight
    else if button == "FromTop" then FromTop
    else if button == "FromBottom" then FromBottom
    else if button == "PanRight" then PanRight
    else if button == "PanLeft" then PanLeft
    else if button == "TiltTop" then TiltTop
    else if button == "TiltBottom" then TiltBottom
    else if button == "ZoomIn" then ZoomIn
    else if button == "ZoomOut" then ZoomOut
    else Unknown
  }

  /** Every button's caption dispatches back to that button. */
  lemma DispatchLabel(c: Command, file: LoadOutcome)
    requires c != Unknown
    requires c.Read? ==> c.file == file
    ensures Dispatch(Label(c), file) == c
  {
  }

  /** The molecule after readMoleculeFile: the file's atoms, or the old list when the file could not be opened. */
  function AfterRead(molecule: seq<Atom>, file: LoadOutcome): seq<Atom> {
    match file
    case Loaded(atoms) => atoms
    case OpenFailed => molecule
  }

  /** The list a command sorts or zooms: the freshly read one for Read, the current one otherwise. */
  function Input(st: Renderer, c: Command): seq<Atom> {
    if c.Read? then AfterRead(st.molecule, c.file) else st.molecule
  }

  /** zoom(): every atom's radius moves by factor; nothing else about it changes. */
  function Zoom(molecule: seq<Atom>, factor: real): (r: seq<Atom>)
    ensures |r| == |molecule|
    ensures forall i :: 0 <= i < |r| ==> r[i].radius == molecule[i].radius + factor
    ensures forall i :: 0 <= i < |r| ==> r[i].(radius := molecule[i].radius) == molecule[i]
    decreases |molecule|
  {
    if |molecule| == 0 then []
    else
      var a := molecule[0];
      [a.(radius := a.radius + factor)] + Zoom(molecule[1..], factor)
  }

  /** The angles a re-sorting button leaves: a fixed pair for Read and the axis views, one step on for pan and tilt. */
  function NewAngles(st: Renderer, c: Command): (int, int)
    requires c.Reorders()
  {
    if c.SortsByAxis() then AxisAngles(c)
    else (st.angleHor + c.HorTurn(1), st.angleVer + c.VerTurn(1))
  }

  /** The comparator a re-sorting button sorts with, once the angles are (h, v). */
  function Order(c: Command, g: Geometry, h: int, v: int): (Atom, Atom) -> int
    requires c.Reorders()
  {
    if c.SortsByAxis() then AxisComparator(c)
    else if c.PanRight? || c.PanLeft? then PanComparator(g, h)
    else TiltComparator(g, v)
  }

  /**
   * buttonPerformed, without the final render(). Every branch but the zoom
   * buttons sets the angles first and then sorts with a comparator that sees
   * the new angles.
   */
  function Step(st: Renderer, c: Command, g: Geometry): (r: Renderer)
    ensures |r.molecule| == |Input(st, c)|
    ensures !c.IsZoom() ==> multiset(r.molecule) == multiset(Input(st, c))
    ensures !c.IsZoom() ==> r.zoomFactor == st.zoomFactor
    ensures c.IsZoom() || c == Unknown ==> r.angleHor == st.angleHor && r.angleVer == st.angleVer
    ensures c == Unknown ==> r == st
  {
    match c
    case ZoomIn =>
      var factor := ZoomStep;
      st.(zoomFactor := factor, molecule := Zoom(st.molecule, factor))
    case ZoomOut =>
      var factor := -ZoomStep;
      st.(zoomFactor := factor, molecule := Zoom(st.molecule, factor))
    case Unknown =>
      st
    case _ =>
      var (h, v) := NewAngles(st, c);
      st.(angleHor := h, angleVer := v, molecule := Sort(Order(c, g, h, v), Input(st, c)))
  }

  /** One press of button c, as a function of the state. */
  function Press(c: Command, g: Geometry): Renderer -> Renderer {
    (s: Renderer) => Step(s, c, g)
  }

  /** f applied n times. */
  function Iterate(f: Renderer -> Renderer, st: Renderer, n: nat): Renderer
    decreases n
  {
    if n == 0 then st else Iterate(f, f(st), n - 1)
  }

  /** The same button pressed n times. */
  function Repeat(st: Renderer, c: Command, g: Geometry, n: nat): Renderer {
    Iterate(Press(c, g), st, n)
  }

  /** The comparator an axis button (or Read) sorts with. */
  function AxisComparator(c: Command): (Atom, Atom) -> int
    requires c.SortsByAxis()
  {
    match c
    case Read(_) => BackToFront
    case FromFront => BackToFront
    case FromBack => FrontToBack
    case FromLeft => RightToLeft
    case FromRight => LeftToRight
    case FromTop => BottomToTop
    case FromBottom => TopToBottom
  }

  /** The (horizontal, vertical) angles an axis button (or Read) sets. */
  function AxisAngles(c: Command): (int, int)
    requires c.SortsByAxis()
  {
    match c
    case Read(_) => (0, 0)
    case FromFront => (0, 0)
    case FromBack => (-180, 0)
    case FromLeft => (-90, 0)
    case FromRight => (90, 0)
    case FromTop => (0, -90)
    case FromBottom => (0, 90)
  }

  /** The axis button whose view is the mirror image of c's. */
  function Mirror(c: Command): (m: Command)
    requires c.IsAxis()
    ensures m.IsAxis() && m != c
    ensures forall a, b :: AxisComparator(m)(a, b) == -AxisComparator(c)(a, b)
  {
    match c
    case FromFront => FromBack
    case FromBack => FromFront
    case FromLeft => FromRight
    case FromRight => FromLeft
    case FromTop => FromBottom
    case FromBottom => FromTop
  }

  // ---------------------------------------------------------------------
  // Axis views
  // ---------------------------------------------------------------------

  /**
   * Read and the six axis buttons set both angles to a fixed pair whatever
   * they were before, and leave the zoom factor alone.
   */
  lemma AxisCommandAngles(st: Renderer, c: Command, g: Geometry, h: int, v: int)
    requires c.SortsByAxis()
    ensures Step(st.(angleHor := h, angleVer := v), c, g) == Step(st, c, g)
    ensures Step(st, c, g).zoomFactor == st.zoomFactor
    ensures c.Read? || c == FromFront ==> Step(st, c, g).angleHor == 0 && Step(st, c, g).angleVer == 0
    ensures c == FromBack ==> Step(st, c, g).angleHor == -180 && Step(st, c, g).angleVer == 0
    ensures c == FromLeft ==> Step(st, c, g).angleHor == -90 && Step(st, c, g).angleVer == 0
    ensures c == FromRight ==> Step(st, c, g).angleHor == 90 && Step(st, c, g).angleVer == 0
    ensures c == FromTop ==> Step(st, c, g).angleHor == 0 && Step(st, c, g).angleVer == -90
    ensures c == FromBottom ==> Step(st, c, g).angleHor == 0 && Step(st, c, g).angleVer == 90
  {
    AxisStepSorts(st, c, g);
    AxisStepSorts(st.(angleHor := h, angleVer := v), c, g);
  }

  /** An axis button (or Read) sorts its input with AxisComparator(c). */
  lemma AxisStepSorts(st: Renderer, c: Command, g: Geometry)
    requires c.SortsByAxis()
    ensures Step(st, c, g).molecule == Sort(AxisComparator(c), Input(st, c))
    ensures Step(st, c, g) == st.(angleHor := AxisAngles(c).0, angleVer := AxisAngles(c).1,
      molecule := Sort(AxisComparator(c), Input(st, c)))
    ensures ValidComparator(AxisComparator(c))
  {
    AxisComparatorsValid();
    match c
    case Read(_) =>
    case FromFront =>
    case FromBack =>
    case FromLeft =>
    case FromRight =>
    case FromTop =>
    case FromBottom =>
  }

  /** What sorted by an axis button's comparator means, coordinate by coordinate. */
  lemma AxisSortedMeans(c: Command, m: seq<Atom>)
    requires c.SortsByAxis()
    requires SortedBy(AxisComparator(c), m)
    ensures c.Read? || c == FromFront ==> forall i, j :: 0 <= i < j < |m| ==> m[i].z <= m[j].z
    ensures c == FromBack ==> forall i, j :: 0 <= i < j < |m| ==> m[i].z >= m[j].z
    ensures c == FromLeft ==> forall i, j :: 0 <= i < j < |m| ==> m[i].x <= m[j].x
    ensures c == FromRight ==> forall i, j :: 0 <= i < j < |m| ==> m[i].x >= m[j].x
    ensures c == FromTop ==> forall i, j :: 0 <= i < j < |m| ==> m[i].y <= m[j].y
    ensures c == FromBottom ==> forall i, j :: 0 <= i < j < |m| ==> m[i].y >= m[j].y
  {
    match c
    case Read(_) => SortedByZ(m);
    case FromFront => SortedByZ(m);
    case FromBack => SortedByZ(m);
    case FromLeft => SortedByX(m);
    case FromRight => SortedByX(m);
    case FromTop => SortedByY(m);
    case FromBottom => SortedByY(m);
  }

  /**
   * After an axis button (or Read) the atoms are a permutation of its input,
   * ordered by the button's coordinate in the button's direction.
   */
  lemma AxisCommandOrders(st: Renderer, c: Command, g: Geometry)
    requires c.SortsByAxis()
    ensures multiset(Step(st, c, g).molecule) == multiset(Input(st, c))
    ensures var m := Step(st, c, g).molecule;
      c.Read? || c == FromFront ==> forall i, j :: 0 <= i < j < |m| ==> m[i].z <= m[j].z
    ensures var m := Step(st, c, g).molecule;
      c == FromBack ==> forall i, j :: 0 <= i < j < |m| ==> m[i].z >= m[j].z
    ensures var m := Step(st, c, g).molecule;
      c == FromLeft ==> forall i, j :: 0 <= i < j < |m| ==> m[i].x <= m[j].x
    ensures var m := Step(st, c, g).molecule;
      c == FromRight ==> forall i, j :: 0 <= i < j < |m| ==> m[i].x >= m[j].x
    ensures var m := Step(st, c, g).molecule;
      c == FromTop ==> forall i, j :: 0 <= i < j < |m| ==> m[i].y <= m[j].y
    ensures var m := Step(st, c, g).molecule;
      c == FromBottom ==> forall i, j :: 0 <= i < j < |m| ==> m[i].y >= m[j].y
  {
    AxisStepSorts(st, c, g);
    SortSorted(AxisComparator(c), Input(st, c));
    AxisSortedMeans(c, Step(st, c, g).molecule);
  }


  /**
   * Axis sorting is stable: atoms the button's comparator ties keep their
   * input order; in particular atoms at the same point stay in load order.
   */
  lemma AxisCommandStable(st: Renderer, c: Command, g: Geometry)
    requires c.SortsByAxis()
    ensures StableFor(AxisComparator(c), Input(st, c), Step(st, c, g).molecule)
    ensures forall x, y :: SamePlace(x, y) && Precedes(Input(st, c), x, y) ==>
      Precedes(Step(st, c, g).molecule, x, y)
  {
    AxisStepSorts(st, c, g);
    SortStable(AxisComparator(c), Input(st, c));
    forall x, y | SamePlace(x, y) && Precedes(Input(st, c), x, y)
      ensures Precedes(Step(st, c, g).molecule, x, y)
    {
      SamePlaceTies(x, y);
      SortKeepsTieOrder(AxisComparator(c), Input(st, c), x, y);
    }
  }

  /** Pressing an axis button twice, or applying Read twice with the same read outcome, is the same as doing it once. */
  lemma AxisCommandIdempotent(st: Renderer, c: Command, g: Geometry)
    requires c.SortsByAxis()
    ensures Step(Step(st, c, g), c, g) == Step(st, c, g)
  {
    var once := Step(st, c, g);
    AxisStepSorts(st, c, g);
    AxisStepSorts(once, c, g);
    if c.Read? && c.file.Loaded? {
      assert Input(once, c) == Input(st, c);
    } else {
      assert Input(once, c) == once.molecule;
      SortIdempotent(AxisComparator(c), Input(st, c));
    }
  }

  /**
   * Two axis buttons whose comparators tie on the same pairs: pressing the
   * second right after the first gives what pressing the second alone gives.
   */
  lemma ResortAxis(st: Renderer, first: Command, second: Command, g: Geometry)
    requires first.IsAxis() && second.IsAxis()
    requires forall x, y :: AxisComparator(first)(x, y) == 0 <==> AxisComparator(second)(x, y) == 0
    ensures Step(Step(st, first, g), second, g) == Step(st, second, g)
  {
    var once := Step(st, first, g);
    AxisStepSorts(st, first, g);
    AxisStepSorts(once, second, g);
    AxisStepSorts(st, second, g);
    ResortSameTies(AxisComparator(first), AxisComparator(second), st.molecule);
    AxisCommandAngles(st, second, g, once.angleHor, once.angleVer);
    assert once.(angleHor := st.angleHor, angleVer := st.angleVer) == st.(molecule := once.molecule);
  }

  /**
   * Switching to a view straight from its mirror view gives what switching
   * to it directly gives: the mirror sort's reordering of ties is undone.
   */
  lemma MirrorViewForgotten(st: Renderer, c: Command, g: Geometry)
    requires c.IsAxis()
    ensures Step(Step(st, Mirror(c), g), c, g) == Step(st, c, g)
  {
    MirrorPairsTieAlike();
    ResortAxis(st, Mirror(c), c, g);
  }

  // ---------------------------------------------------------------------
  // Pan and tilt
  // ---------------------------------------------------------------------

  /**
   * A pan press moves only the horizontal angle and a tilt press only the
   * vertical one, by panStep; the atoms are re-sorted by a comparator that
   * reads the angle already moved.
   */
  lemma IncrementStep(st: Renderer, c: Command, g: Geometry)
    requires c.IsIncrement()
    ensures Step(st, c, g).zoomFactor == st.zoomFactor
    ensures multiset(Step(st, c, g).molecule) == multiset(st.molecule)
    ensures Step(st, c, g).angleHor == st.angleHor + c.HorTurn(1)
    ensures Step(st, c, g).angleVer == st.angleVer + c.VerTurn(1)
    ensures c == PanRight ==> Step(st, c, g).angleHor == st.angleHor + 5
    ensures c == PanLeft ==> Step(st, c, g).angleHor == st.angleHor - 5
    ensures c == TiltTop ==> Step(st, c, g).angleVer == st.angleVer + 5
    ensures c == TiltBottom ==> Step(st, c, g).angleVer == st.angleVer - 5
    ensures c == PanRight || c == PanLeft ==> Step(st, c, g).angleVer == st.angleVer
    ensures c == TiltTop || c == TiltBottom ==> Step(st, c, g).angleHor == st.angleHor
    ensures c.PanRight? || c.PanLeft? ==>
      Step(st, c, g).molecule == Sort(PanComparator(g, Step(st, c, g).angleHor), st.molecule)
    ensures c.TiltTop? || c.TiltBottom? ==>
      Step(st, c, g).molecule == Sort(TiltComparator(g, Step(st, c, g).angleVer), st.molecule)
  {
  }

  /**
   * When furtherLtoR behaves as a depth difference at the new angle, a pan
   * press leaves the atoms ordered by the pan comparator, ties in input order.
   */
  lemma PanOrders(st: Renderer, c: Command, g: Geometry, depth: Atom -> real)
    requires c == PanRight || c == PanLeft
    requires forall a, b :: g.furtherLtoR(a, b, Step(st, c, g).angleHor) == depth(a) - depth(b)
    ensures SortedBy(PanComparator(g, Step(st, c, g).angleHor), Step(st, c, g).molecule)
    ensures StableFor(PanComparator(g, Step(st, c, g).angleHor), st.molecule, Step(st, c, g).molecule)
  {
    var h := Step(st, c, g).angleHor;
    PanComparatorValid(g, h, depth);
    SortSorted(PanComparator(g, h), st.molecule);
    SortStable(PanComparator(g, h), st.molecule);
  }

  /** The same for a tilt press and furtherTtoB. */
  lemma TiltOrders(st: Renderer, c: Command, g: Geometry, depth: Atom -> real)
    requires c == TiltTop || c == TiltBottom
    requires forall a, b :: g.furtherTtoB(a, b, Step(st, c, g).angleVer) == depth(a) - depth(b)
    ensures SortedBy(TiltComparator(g, Step(st, c, g).angleVer), Step(st, c, g).molecule)
    ensures StableFor(TiltComparator(g, Step(st, c, g).angleVer), st.molecule, Step(st, c, g).molecule)
  {
    var v := Step(st, c, g).angleVer;
    TiltComparatorValid(g, v, depth);
    SortSorted(TiltComparator(g, v), st.molecule);
    SortStable(TiltComparator(g, v), st.molecule);
  }

  /** Iterating a step that keeps the zoom factor and the atoms (up to order) keeps them. */
  lemma {:induction false} IterateKeepsAtoms(f: Renderer -> Renderer, st: Renderer, n: nat)
    requires forall s :: f(s).zoomFactor == s.zoomFactor && multiset(f(s).molecule) == multiset(s.molecule)
    ensures Iterate(f, st, n).zoomFactor == st.zoomFactor
    ensures multiset(Iterate(f, st, n).molecule) == multiset(st.molecule)
    decreases n
  {
    if n > 0 {
      IterateKeepsAtoms(f, f(st), n - 1);
    }
  }

  /** Iterating a step that turns the angles by (dh, dv) turns them by n times as much. */
  lemma {:induction false} IterateTurns(f: Renderer -> Renderer, st: Renderer, n: nat, dh: int, dv: int)
    requires forall s :: f(s).angleHor == s.angleHor + dh && f(s).angleVer == s.angleVer + dv
    ensures Iterate(f, st, n).angleHor == st.angleHor + n * dh
    ensures Iterate(f, st, n).angleVer == st.angleVer + n * dv
    decreases n
  {
    if n > 0 {
      IterateTurns(f, f(st), n - 1, dh, dv);
      assert (n - 1) * dh + dh == n * dh;
      assert (n - 1) * dv + dv == n * dv;
    }
  }

  /** n presses of a pan or tilt button move its angle by n steps and nothing else. */
  lemma RepeatIncrement(st: Renderer, c: Command, g: Geometry, n: nat)
    requires c.IsIncrement()
    ensures Repeat(st, c, g, n).zoomFactor == st.zoomFactor
    ensures multiset(Repeat(st, c, g, n).molecule) == multiset(st.molecule)
    ensures Repeat(st, c, g, n).angleHor == st.angleHor + c.HorTurn(n)
    ensures Repeat(st, c, g, n).angleVer == st.angleVer + c.VerTurn(n)
    ensures c == PanRight ==> Repeat(st, c, g, n).angleHor == st.angleHor + 5 * n
    ensures c == PanLeft ==> Repeat(st, c, g, n).angleHor == st.angleHor - 5 * n
    ensures c == TiltTop ==> Repeat(st, c, g, n).angleVer == st.angleVer + 5 * n
    ensures c == TiltBottom ==> Repeat(st, c, g, n).angleVer == st.angleVer - 5 * n
    ensures c == PanRight || c == PanLeft ==> Repeat(st, c, g, n).angleVer == st.angleVer
    ensures c == TiltTop || c == TiltBottom ==> Repeat(st, c, g, n).angleHor == st.angleHor
  {
    var f := Press(c, g);
    forall s
      ensures f(s).zoomFactor == s.zoomFactor && multiset(f(s).molecule) == multiset(s.molecule)
      ensures f(s).angleHor == s.angleHor + c.HorTurn(1) && f(s).angleVer == s.angleVer + c.VerTurn(1)
    {
      IncrementStep(s, c, g);
    }
    IterateKeepsAtoms(f, st, n);
    IterateTurns(f, st, n, c.HorTurn(1), c.VerTurn(1));
    assert n * c.HorTurn(1) == c.HorTurn(n) && n * c.VerTurn(1) == c.VerTurn(n) by {
      assert n * -PanStep == -(n * PanStep);
    }
  }

  /** n PanRight presses followed by n PanLeft presses restore both angles. */
  lemma PanRoundTrip(st: Renderer, g: Geometry, n: nat)
    ensures Repeat(Repeat(st, PanRight, g, n), PanLeft, g, n).angleHor == st.angleHor
    ensures Repeat(Repeat(st, PanRight, g, n), PanLeft, g, n).angleVer == st.angleVer
    ensures multiset(Repeat(Repeat(st, PanRight, g, n), PanLeft, g, n).molecule) == multiset(st.molecule)
  {
    var there := Repeat(st, PanRight, g, n);
    RepeatIncrement(st, PanRight, g, n);
    RepeatIncrement(there, PanLeft, g, n);
  }

  /** n TiltTop presses followed by n TiltBottom presses restore both angles. */
  lemma TiltRoundTrip(st: Renderer, g: Geometry, n: nat)
    ensures Repeat(Repeat(st, TiltTop, g, n), TiltBottom, g, n).angleHor == st.angleHor
    ensures Repeat(Repeat(st, TiltTop, g, n), TiltBottom, g, n).angleVer == st.angleVer
    ensures multiset(Repeat(Repeat(st, TiltTop, g, n), TiltBottom, g, n).molecule) == multiset(st.molecule)
  {
    var there := Repeat(st, TiltTop, g, n);
    RepeatIncrement(st, TiltTop, g, n);
    RepeatIncrement(there, TiltBottom, g, n);
  }

  /** 72 PanRight presses turn the view by exactly one full turn. */
  lemma FullTurn(st: Renderer, g: Geometry)
    ensures Repeat(st, PanRight, g, 72).angleHor == st.angleHor + 360
    ensures Repeat(st, PanRight, g, 72).angleVer == st.angleVer
  {
    RepeatIncrement(st, PanRight, g, 72);
  }

  // ---------------------------------------------------------------------
  // Zoom
  // ---------------------------------------------------------------------

  /** Zooming by a factor and then by its negation gives back the same atoms. */
  lemma {:induction false} ZoomInverse(molecule: seq<Atom>, factor: real)
    ensures Zoom(Zoom(molecule, factor), -factor) == molecule
    decreases |molecule|
  {
    if |molecule| > 0 {
      ZoomInverse(molecule[1..], factor);
    }
  }

  /**
   * ZoomIn and ZoomOut change only the radii, by +15 and -15: positions,
   * identities, order, length and both angles stay as they were.
   */
  lemma ZoomChangesOnlyRadii(st: Renderer, c: Command, g: Geometry)
    requires c.IsZoom()
    ensures Step(st, c, g).angleHor == st.angleHor && Step(st, c, g).angleVer == st.angleVer
    ensures |Step(st, c, g).molecule| == |st.molecule|
    ensures forall i :: 0 <= i < |st.molecule| ==>
      Step(st, c, g).molecule[i].(radius := st.molecule[i].radius) == st.molecule[i]
    ensures c == ZoomIn ==> forall i :: 0 <= i < |st.molecule| ==>
      Step(st, c, g).molecule[i].radius == st.molecule[i].radius + 15.0
    ensures c == ZoomOut ==> forall i :: 0 <= i < |st.molecule| ==>
      Step(st, c, g).molecule[i].radius == st.molecule[i].radius - 15.0
    ensures Step(st, c, g).zoomFactor == if c == ZoomIn then 15.0 else -15.0
  {
  }

  /** ZoomIn then ZoomOut, or ZoomOut then ZoomIn, restores every atom and both angles. */
  lemma ZoomRoundTrip(st: Renderer, g: Geometry)
    ensures Step(Step(st, ZoomIn, g), ZoomOut, g).molecule == st.molecule
    ensures Step(Step(st, ZoomOut, g), ZoomIn, g).molecule == st.molecule
    ensures Step(Step(st, ZoomIn, g), ZoomOut, g).angleHor == st.angleHor
    ensures Step(Step(st, ZoomIn, g), ZoomOut, g).angleVer == st.angleVer
    ensures Step(Step(st, ZoomOut, g), ZoomIn, g).angleHor == st.angleHor
    ensures Step(Step(st, ZoomOut, g), ZoomIn, g).angleVer == st.angleVer
  {
    ZoomInverse(st.molecule, ZoomStep);
    ZoomInverse(st.molecule, -ZoomStep);
  }
}
