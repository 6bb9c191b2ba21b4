/**
 * The atoms of a molecule, as the renderer sees them through Atom's
 * accessors. The Atom class itself is not part of this model: its getters
 * are taken to return the coordinates and radius it was built with, newRad
 * to replace the radius, and its two depth helpers appear here only as
 * opaque functions (Geometry).
 */
module Atoms {

  /** java.awt.Color, by its three channels. */
  datatype Color = Color(red: int, green: int, blue: int)

  /**
   * An atom at integer position (x, y, z), drawn with a color and a radius.
   * id stands for the identity of the Java object, so that two atoms at the
   * same place with the same element are still told apart.
   */
  datatype Atom = Atom(id: nat, x: int, y: int, z: int, color: Color, radius: real)

  /**
   * Atom.furtherLtoR and Atom.furtherTtoB: how much further one atom is than
   * another at a horizontal (resp. vertical) viewing angle in degrees. Their
   * trigonometry is not modelled; any deterministic functions will do.
   */
  datatype Geometry = Geometry(
    furtherLtoR: (Atom, Atom, int) -> real,
    furtherTtoB: (Atom, Atom, int) -> real)

  /** Two atoms occupy the same point. */
  predicate SamePlace(a: Atom, b: Atom) {
    a.x == b.x && a.y == b.y && a.z == b.z
  }
}
