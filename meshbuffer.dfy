/**
  The single-submesh output mesh that the two chunk meshers append to (a `NativeMesh` handle
  used through `VertexCount`, `AppendVertex` and `AppendIndex`). Those three members belong to
  a revision of `NativeMesh` that is not part of this model; the class below stands in for
  them, appending at the end of one vertex list and one index list. The handle is a struct
  around shared native memory, so every copy sees the appends: a class captures that sharing.
*/
module MeshBuffers {
  /** The contents of a mesh: its vertices and its (16-bit) triangle indices. */
  datatype MeshData<V> = MeshData(vertices: seq<V>, indices: seq<int>)

  class MeshBuffer<V> {
    var vertices: seq<V>
    var indices: seq<int>

    /** An empty mesh. */
    constructor ()
      ensures vertices == [] && indices == []
    {
      vertices := [];
      indices := [];
    }

    /** The whole contents, as a value. */
    function Data(): (r: MeshData<V>)
      reads this
      ensures r.vertices == vertices && r.indices == indices
    {
      MeshData(vertices, indices)
    }

    /** `VertexCount`: the number of vertices appended so far. */
    function VertexCount(): (r: nat)
      reads this
      ensures r == |vertices|
    {
      |vertices|
    }

    /** `AppendVertex`: one vertex at the end; the indices stay. */
    method AppendVertex(v: V)
      modifies this
      ensures vertices == old(vertices) + [v] && indices == old(indices)
    {
      vertices := vertices + [v];
    }

    /** `AppendIndex`: one index at the end; the vertices stay. */
    method AppendIndex(i: int)
      modifies this
      ensures indices == old(indices) + [i] && vertices == old(vertices)
    {
      indices := indices + [i];
    }
  }
}
