/** Triangle meshes as nibabel hands them to the modelled code. */
module Geometry {

  /** One row of a vertex-coordinate array. */
  datatype Vertex = Vertex(x: real, y: real, z: real)

  /** One row of a face array: three vertex indices. */
  datatype Face = Face(a: int, b: int, c: int)

  /** A vertex array and a face array. */
  datatype Mesh = Mesh(verts: seq<Vertex>, faces: seq<Face>)

  /** An RGBA colour row as used for PLY vertex colours. */
  datatype Color = Color(r: int, g: int, b: int, alpha: int)

  /** Every index of the face lies in [0, n). */
  predicate FaceWithin(f: Face, n: int) {
    0 <= f.a < n && 0 <= f.b < n && 0 <= f.c < n
  }

  /** Every face of the mesh refers to one of its vertices. */
  predicate WellFormed(m: Mesh) {
    forall j :: 0 <= j < |m.faces| ==> FaceWithin(m.faces[j], |m.verts|)
  }
}
