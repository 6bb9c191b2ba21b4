# MoleculeRenderer view ordering, in Dafny

MoleculeRenderer draws a molecule as one coloured circle per atom. To get
occlusion right it paints the atoms in a fixed order, and that order depends on
the viewpoint. This project models the part of the renderer that chooses the
order:

- `Comparators`: the comparator classes. Six compare a single coordinate and
  come in mirrored pairs: `BackToFront`/`FrontToBack` on z,
  `RightToLeft`/`LeftToRight` on x, `BottomToTop`/`TopToBottom` on y. The
  other two, `PanComparator` and `TiltComparator`, turn Atom's depth helpers
  into a result of 1, -1 or 0.
- `Sorting`: the `java.util.Comparator` contract, plus `Collections.sort`
  modelled as a stable insertion sort. `StableSortUnique` proves that a
  contract-keeping comparator admits only one sorted, stable rearrangement.
  So the model gives the same list as the library's merge sort.
- `MoleculeRenderer`: the renderer's state, made of two angles, the zoom
  factor and the atom list. `Step` is the transition that `buttonPerformed`
  applies for each button. Each branch that re-sorts first sets the angles
  (`NewAngles`) and then sorts with the branch's comparator (`Order`), which
  sees the new angles, as the pan and tilt comparators do through the
  renderer's fields. `Zoom` is `zoom()`.
- `Atoms`: atoms as immutable records. `id` stands for the identity of the
  Java object. Atom's two depth helpers, `furtherLtoR` and `furtherTtoB`,
  become function-valued parameters (`Geometry`).
- `Scenarios`: concrete scenarios on small molecules, proved as lemmas.

Angles are integers, because every angle the buttons can reach is a multiple
of 5 degrees. Radii are reals, so the rounding of the source's `double`
radii is not modelled (see "## Left out").

Where the code and its own comments disagree, the model follows the code:

- `BackToFrontComparator` returns 1 when `a1` has the larger z
  (MoleculeRenderer.java:255-256). Its doc comment (lines 244-251) says that
  larger z is towards the back and asks for a negative result when `a1` is
  further back. Taken at its word, a back-to-front painting order would put
  the atom with the larger z first. The code puts it last: Read and FromFront
  sort by ascending z, and FromBack sorts by descending z. Reading
  [Carbon z = 10, Oxygen z = -10] gives [Oxygen, Carbon]
  (`Scenarios.ReadThenBack`), although the comment's convention would paint
  Carbon, the atom further back, first. Without the Atom class (not part of
  this model) it cannot be decided which order paints correctly.
- FromBack sets the horizontal angle to -180 (line 97). The class comment
  (line 28) describes the back view as 180 degrees.
- `zoom()` adds plus or minus 15 to every radius and never clamps, so a radius
  can become zero or negative.

## Model

| member | source | states |
|---|---|---|
| `Comparators.BackToFront` | MoleculeRenderer.java:254-264 | Returns exactly 1, -1 or 0 as a1.z is greater than, less than or equal to a2.z |
| `Comparators.FrontToBack` | MoleculeRenderer.java:270-280 | Is the exact negation of BackToFront on every pair of atoms |
| `Comparators.RightToLeft` | MoleculeRenderer.java:295-305 | Returns exactly 1, -1 or 0 as a1.x is greater than, less than or equal to a2.x |
| `Comparators.LeftToRight` | MoleculeRenderer.java:311-321 | Is the exact negation of RightToLeft on every pair of atoms |
| `Comparators.BottomToTop` | MoleculeRenderer.java:336-346 | Returns exactly 1, -1 or 0 as a1.y is greater than, less than or equal to a2.y |
| `Comparators.TopToBottom` | MoleculeRenderer.java:352-362 | Is the exact negation of BottomToTop on every pair of atoms |
| `Comparators.PanCompare` | MoleculeRenderer.java:368-378 | Returns 1, -1 or 0 exactly when furtherLtoR at the current horizontal angle is positive, negative or zero |
| `Comparators.TiltCompare` | MoleculeRenderer.java:385-395 | Returns 1, -1 or 0 exactly when furtherTtoB at the current vertical angle is positive, negative or zero |
| `Comparators.AxisComparatorsValid` | MoleculeRenderer.java:243-363 | Each of the six axis comparators keeps the Comparator contract (sign antisymmetry, transitivity, consistency of ties), so each is a total preorder |
| `Comparators.MirrorPairsTieAlike` | MoleculeRenderer.java:267-363 | Each mirror pair ties on exactly the same pairs of atoms |
| `Comparators.SamePlaceTies` | MoleculeRenderer.java:254-362 | Two atoms at the same point tie under all six axis comparators |
| `Comparators.PanComparatorValid` | MoleculeRenderer.java:366-379 | If furtherLtoR at the angle is a difference of depths, the pan comparator keeps the Comparator contract |
| `Comparators.TiltComparatorValid` | MoleculeRenderer.java:383-396 | If furtherTtoB at the angle is a difference of depths, the tilt comparator keeps the Comparator contract |
| `Comparators.PanAgreesWithBackToFront` | MoleculeRenderer.java:368-378 | Where furtherLtoR reduces to the z difference, the pan comparator equals BackToFront and sorts every list the same way |
| `Comparators.TiltAgreesWithBottomToTop` | MoleculeRenderer.java:385-395 | Where furtherTtoB reduces to the y difference, the tilt comparator equals BottomToTop and sorts every list the same way |
| `Comparators.SortedByZ` | MoleculeRenderer.java:254-280 | Sorted by BackToFront means z never decreases. Sorted by FrontToBack means z never increases |
| `Comparators.SortedByX` | MoleculeRenderer.java:295-321 | Sorted by RightToLeft means x never decreases. Sorted by LeftToRight means x never increases |
| `Comparators.SortedByY` | MoleculeRenderer.java:336-362 | Sorted by BottomToTop means y never decreases. Sorted by TopToBottom means y never increases |
| `Sorting.Sort` | MoleculeRenderer.java:87-135 | Collections.sort returns a permutation of its input |
| `Sorting.SortSorted` | MoleculeRenderer.java:87-135 | Under a contract-keeping comparator, the sorted list has no element comparing greater than a later one |
| `Sorting.SortStable` | MoleculeRenderer.java:87-135 | Elements that compare equal keep their input order: each class of ties appears in the output exactly as in the input |
| `Sorting.SortKeepsTieOrder` | MoleculeRenderer.java:87-135 | Two tied elements in one order in the input are in that order in the output |
| `Sorting.StableSortUnique` | MoleculeRenderer.java:87-135 | Two lists that are sorted by the same contract comparator and have the same ties are equal, so any stable sort gives the modelled result |
| `Sorting.SortIsTheStableSort` | MoleculeRenderer.java:87-135 | Any sorted, stable rearrangement of the input is exactly the modelled sort's result |
| `Sorting.SortIdempotent` | MoleculeRenderer.java:87-135 | Sorting twice with one comparator is the same as sorting once |
| `Sorting.ResortSameTies` | MoleculeRenderer.java:87-119 | Re-sorting with a comparator that has the same ties gives the same result as sorting the original list |
| `Sorting.InsertSorted` | MoleculeRenderer.java:87-135 | Inserting into a sorted list keeps it sorted |
| `Sorting.InsertTies` | MoleculeRenderer.java:87-135 | An inserted element goes after every element already present that ties with it |
| `MoleculeRenderer.Dispatch` | MoleculeRenderer.java:82-144 | A caption picks a branch exactly when it is one of the thirteen button captions; the branch picked is the one with that caption; Read gets the file that was read |
| `MoleculeRenderer.DispatchLabel` | MoleculeRenderer.java:57-71 | Each button's caption dispatches back to that button |
| `MoleculeRenderer.Step` | MoleculeRenderer.java:81-148 | A press keeps the length of its input list (for Read, the list read). Except for zoom, it permutes the atoms and keeps the zoom factor. Zoom and unknown captions keep both angles. An unknown caption changes nothing |
| `MoleculeRenderer.Zoom` | MoleculeRenderer.java:225-230 | Every radius moves by the zoom factor and no other part of any atom changes |
| `MoleculeRenderer.AxisCommandAngles` | MoleculeRenderer.java:82-119 | Read and each axis button set the angles to their fixed pair, whatever the earlier angles were: Front (0,0), Back (-180,0), Left (-90,0), Right (90,0), Top (0,-90), Bottom (0,90) |
| `MoleculeRenderer.AxisStepSorts` | MoleculeRenderer.java:82-119 | An axis button sorts its input with its comparator, and that comparator keeps the contract |
| `MoleculeRenderer.AxisCommandOrders` | MoleculeRenderer.java:82-119 | After Read or an axis button the atoms are a permutation of the input. Read/Front: z non-decreasing. Back: z non-increasing. Left: x non-decreasing. Right: x non-increasing. Top: y non-decreasing. Bottom: y non-increasing |
| `MoleculeRenderer.AxisCommandStable` | MoleculeRenderer.java:87-118 | Atoms tied by the button's comparator keep their input order. Atoms at the same point stay in load order |
| `MoleculeRenderer.AxisCommandIdempotent` | MoleculeRenderer.java:82-119 | Pressing an axis button twice, or applying Read twice with the same read outcome, is the same as doing it once |
| `MoleculeRenderer.Mirror` | MoleculeRenderer.java:267-363 | The mirror of an axis button is another axis button whose comparator is the exact negation of the first one's on every pair of atoms |
| `MoleculeRenderer.ResortAxis` | MoleculeRenderer.java:89-119 | Pressing an axis button right after one whose comparator has the same ties gives what pressing it alone gives |
| `MoleculeRenderer.MirrorViewForgotten` | MoleculeRenderer.java:89-119 | Switching to a view straight from its mirror view gives what switching to it directly gives |
| `MoleculeRenderer.IncrementStep` | MoleculeRenderer.java:120-136 | PanRight/PanLeft move only the horizontal angle, by +5/-5. TiltTop/TiltBottom move only the vertical angle, by +5/-5. The zoom factor and the set of atoms stay, with the literal steps +5/-5 stated per button. The atoms are re-sorted by the comparator at the new angle |
| `MoleculeRenderer.PanOrders` | MoleculeRenderer.java:120-127 | When furtherLtoR is a depth difference at the new angle, a pan press sorts the atoms by the pan comparator, keeping tied atoms in input order |
| `MoleculeRenderer.TiltOrders` | MoleculeRenderer.java:129-136 | When furtherTtoB is a depth difference at the new angle, a tilt press sorts the atoms by the tilt comparator, keeping tied atoms in input order |
| `MoleculeRenderer.RepeatIncrement` | MoleculeRenderer.java:120-136 | n presses of one pan or tilt button move its angle by n times 5. The other angle, the zoom factor and the set of atoms stay as they were |
| `MoleculeRenderer.PanRoundTrip` | MoleculeRenderer.java:120-127 | n PanRight presses followed by n PanLeft presses restore both angles and the set of atoms |
| `MoleculeRenderer.TiltRoundTrip` | MoleculeRenderer.java:129-136 | n TiltTop presses followed by n TiltBottom presses restore both angles and the set of atoms |
| `MoleculeRenderer.FullTurn` | MoleculeRenderer.java:120-123 | 72 PanRight presses add exactly 360 to the horizontal angle and leave the vertical one alone |
| `MoleculeRenderer.ZoomInverse` | MoleculeRenderer.java:225-230 | Zooming by a factor and then by its negation gives back exactly the original atoms |
| `MoleculeRenderer.ZoomChangesOnlyRadii` | MoleculeRenderer.java:137-144 | ZoomIn/ZoomOut add +15/-15 to each radius and set the zoom factor to match. Positions, identities, order, length and both angles do not change |
| `MoleculeRenderer.ZoomRoundTrip` | MoleculeRenderer.java:137-144 | ZoomIn then ZoomOut, or ZoomOut then ZoomIn, restores every atom and both angles |
| `Scenarios.ReadThenBack` | MoleculeRenderer.java:82-98 | Reading [Carbon z=10, Oxygen z=-10] gives [Oxygen, Carbon]. FromBack then gives [Carbon, Oxygen] at angle -180 |
| `Scenarios.SamePointKeepsLoadOrder` | MoleculeRenderer.java:82-118 | Two atoms at (5,5,5), loaded A then B, stay A then B under Read and every axis view |
| `Scenarios.ReadThenFullTurn` | MoleculeRenderer.java:82-123 | After a Read, 72 PanRight presses give angles (360, 0) and keep the same atoms |
| `Scenarios.UnknownCaption` | MoleculeRenderer.java:81-148 | A caption with no branch dispatches to no command and leaves the state unchanged |

## Left out

- The GUI is not modelled: `UI.addButton`, `render()`, `UI.clearGraphics`, `UI.repaintGraphics` and `main`. They only draw and have no state to speak of. `Step` is `buttonPerformed` without its final `render()`.
- Reading files is not modelled: `readMoleculeFile`, `readElementTable` and the `Element` class are Scanner and File I/O. The outcome of choosing and reading a file is an input to the `Read` command: the atoms read, or a file that could not be opened (the old list is kept).
- Runtime exceptions are not modelled. This covers the NullPointerException for an element missing from the table (lines 175-176). It covers the null list when a command comes before the first successful read: every branch's `Collections.sort` (lines 92-135) and the loop in `zoom()` (line 226) would throw, after the angles or the zoom factor have already been updated. The model starts from an empty list instead, and its post-state agrees on those updated fields. It covers a malformed line in the middle of a file, which leaves a partly read list behind. It covers a cancelled file chooser: `UIFileChooser.open()` returns null and `new File(null)` throws, after lines 83-84 have already reset both angles.
- The geometry is not modelled: `Atom.furtherLtoR`, `Atom.furtherTtoB` and `Atom.render` are floating-point trigonometry in a class that is not part of this model. They appear only as opaque deterministic functions (`Geometry`). Properties of the pan and tilt sorts therefore assume that these functions behave as depth differences.
- Comparators that break the Comparator contract are not modelled. The library sort may throw IllegalArgumentException or return another order for such a comparator. The model still returns its insertion-sort permutation. This only matters for pan and tilt with an ill-behaved geometry.
- Angles are `int`, not `double`. Every angle the buttons reach is a multiple of 5 degrees, which a double holds exactly up to 2^53. Larger values are not modelled.
- MoleculeRenderer.ZoomInverse: radii are reals, not doubles. The source computes `getRad() + zoomFactor` in floating point, so ZoomIn then ZoomOut restores a radius exactly only while `r + 15` and `r + 15 - 15` are exact in double precision, for example for integer-valued radii below 2^53. In double precision, a radius of 0.1 comes back as 0.09999999999999964.
- MoleculeRenderer.ZoomRoundTrip: exact for the same reason, and subject to the same floating-point caveat as ZoomInverse.
- MoleculeRenderer.PanRoundTrip: restores the angles and the set of atoms, but not the order of the atoms. Pan sorts at intermediate angles can reorder atoms that tie at the final angle. Whether the original order comes back depends on the geometry, which is not modelled.
- Atom's getters and `newRad` are assumed to return or replace the stored values. The Atom class is not part of this model.
