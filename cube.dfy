/** The cube mesh the GPU particle world uploads once at start: 24 face
    corners with their normals and a 36-entry index table expanded into a
    triangle list. Positions are written in units of the half-size s
    (0.05), so every coordinate is -1 or 1; normals are exact. */
module CubeMesh {

  datatype Vec3 = Vec3(x: int, y: int, z: int)

  datatype CubeVertex = CubeVertex(position: Vec3, normal: Vec3)

  function Dot(a: Vec3, b: Vec3): int { a.x * b.x + a.y * b.y + a.z * b.z }

  /** Face corners, four per face: +z, +y, -y, -x, +x, -z. */
  const CubePositions: seq<Vec3> := [
    Vec3(-1, -1, 1), Vec3(1, -1, 1), Vec3(1, 1, 1), Vec3(-1, 1, 1),
    Vec3(-1, 1, -1), Vec3(1, 1, -1), Vec3(1, 1, 1), Vec3(-1, 1, 1),
    Vec3(-1, -1, -1), Vec3(1, -1, -1), Vec3(1, -1, 1), Vec3(-1, -1, 1),
    Vec3(-1, -1, 1), Vec3(-1, -1, -1), Vec3(-1, 1, -1), Vec3(-1, 1, 1),
    Vec3(1, -1, 1), Vec3(1, -1, -1), Vec3(1, 1, -1), Vec3(1, 1, 1),
    Vec3(-1, -1, -1), Vec3(1, -1, -1), Vec3(1, 1, -1), Vec3(-1, 1, -1)
  ]

  const CubeNormals: seq<Vec3> := [
    Vec3(0, 0, 1), Vec3(0, 0, 1), Vec3(0, 0, 1), Vec3(0, 0, 1),
    Vec3(0, 1, 0), Vec3(0, 1, 0), Vec3(0, 1, 0), Vec3(0, 1, 0),
    Vec3(0, -1, 0), Vec3(0, -1, 0), Vec3(0, -1, 0), Vec3(0, -1, 0),
    Vec3(-1, 0, 0), Vec3(-1, 0, 0), Vec3(-1, 0, 0), Vec3(-1, 0, 0),
    Vec3(1, 0, 0), Vec3(1, 0, 0), Vec3(1, 0, 0), Vec3(1, 0, 0),
    Vec3(0, 0, -1), Vec3(0, 0, -1), Vec3(0, 0, -1), Vec3(0, 0, -1)
  ]

  /** Two triangles per face. */
  const CubeIndices: seq<nat> := [
    0, 1, 3, 3, 1, 2,
    5, 4, 6, 6, 4, 7,
    8, 9, 11, 11, 9, 10,
    13, 12, 14, 14, 12, 15,
    16, 17, 19, 19, 17, 18,
    21, 20, 22, 22, 20, 23
  ]

  /** The index table has 36 entries, and every group of six refers only to
      the four corners of its own face (so every index is below 24). */
  lemma CubeIndicesStayOnTheirFace()
    ensures |CubeIndices| == 36 && |CubePositions| == 24 && |CubeNormals| == 24
    ensures forall i :: 0 <= i < 36 ==> 4 * (i / 6) <= CubeIndices[i] < 4 * (i / 6) + 4
  {
  }

  /** Every expanded vertex lies on the face its normal points to: its
      coordinate along the normal is +s. */
  lemma ExpandedVerticesLieOnTheirFaces()
    ensures forall i :: 0 <= i < 36 ==> CubeIndices[i] < 24 && Dot(CubePositions[CubeIndices[i]], CubeNormals[CubeIndices[i]]) == 1
  {
  }

  /** The four corners of a face block share one unit-length normal. */
  lemma CubeFaceNormalsAgree()
    ensures |CubeNormals| == 24
    ensures forall v :: 0 <= v < 24 ==> CubeNormals[v] == CubeNormals[4 * (v / 4)]
    ensures forall v :: 0 <= v < 24 ==> Dot(CubeNormals[v], CubeNormals[v]) == 1
  {
  }

  lemma QuotientByFour(x: nat, k: nat)
    requires 4 * k <= x < 4 * k + 4
    ensures x / 4 == k
  {
  }

  /** The six expanded vertices of face k all carry that face's normal. */
  lemma ExpandedVerticesShareFaceNormal()
    ensures forall i :: 0 <= i < 36 ==> CubeIndices[i] < 24 && CubeNormals[CubeIndices[i]] == CubeNormals[4 * (i / 6)]
  {
    CubeIndicesStayOnTheirFace();
    CubeFaceNormalsAgree();
    forall i | 0 <= i < 36
      ensures CubeIndices[i] < 24 && CubeNormals[CubeIndices[i]] == CubeNormals[4 * (i / 6)]
    {
      QuotientByFour(CubeIndices[i], i / 6);
    }
  }

  /** The vertex-expansion loop of MPParticleWorldImplGPU.Start:
      vertices[i] takes the position and normal of corner indices[i]. */
  method ExpandIndexed(positions: seq<Vec3>, normals: seq<Vec3>, indices: seq<nat>) returns (vertices: seq<CubeVertex>)
    requires forall i :: 0 <= i < |indices| ==> indices[i] < |positions| && indices[i] < |normals|
    ensures |vertices| == |indices|
    ensures forall i :: 0 <= i < |indices| ==> vertices[i] == CubeVertex(positions[indices[i]], normals[indices[i]])
  {
    var a := new CubeVertex[|indices|];
    for i := 0 to a.Length
      invariant forall j :: 0 <= j < i ==> a[j] == CubeVertex(positions[indices[j]], normals[indices[j]])
    {
      a[i] := CubeVertex(positions[indices[i]], normals[indices[i]]);
    }
    vertices := a[..];
  }

  /** The 36 vertices uploaded to the cube vertex buffer: every one lies on
      its face and carries the normal of the face its triangle belongs to. */
  method BuildCubeVertices() returns (vertices: seq<CubeVertex>)
    ensures |vertices| == |CubeIndices| == 36
    ensures forall i :: 0 <= i < 36 ==>
      CubeIndices[i] < 24 && vertices[i] == CubeVertex(CubePositions[CubeIndices[i]], CubeNormals[CubeIndices[i]])
    ensures forall i :: 0 <= i < 36 ==>
      vertices[i].normal == CubeNormals[4 * (i / 6)]
    ensures forall i :: 0 <= i < 36 ==> Dot(vertices[i].position, vertices[i].normal) == 1
  {
    CubeIndicesStayOnTheirFace();
    ExpandedVerticesShareFaceNormal();
    vertices := ExpandIndexed(CubePositions, CubeNormals, CubeIndices);
    ExpandedVerticesLieOnTheirFaces();
  }
}
