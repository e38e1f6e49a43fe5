/** The cylinder, cone and sphere the map is drawn with: closed surfaces, wound the same way all round, for every
    number of segments and rings.

    A vertex stands for its place; vertices that lie on one another are the same place. That different places on a
    rim or ring are apart is taken from trigonometry. */
module Meshes {
  import opened Collections

  datatype Triangle<P> = Triangle(a: P, b: P, c: P)

  datatype Mesh<P> = Mesh(vertices: seq<P>, triangles: seq<Triangle<nat>>)

  function Edge<P>(t: Triangle<P>, corner: nat): (P, P)
    requires corner < 3
  {
    if corner == 0 then (t.a, t.b) else if corner == 1 then (t.b, t.c) else (t.c, t.a)
  }

  function Back<P>(e: (P, P)): (P, P) {
    (e.1, e.0)
  }

  predicate InRange<P>(m: Mesh<P>) {
    forall t :: 0 <= t < |m.triangles| ==>
      m.triangles[t].a < |m.vertices| && m.triangles[t].b < |m.vertices| && m.triangles[t].c < |m.vertices|
  }

  function Faces<P>(m: Mesh<P>): (r: seq<Triangle<P>>)
    requires InRange(m)
    ensures |r| == |m.triangles|
    ensures forall t :: 0 <= t < |r| ==>
              r[t] == Triangle(m.vertices[m.triangles[t].a], m.vertices[m.triangles[t].b], m.vertices[m.triangles[t].c])
  {
    seq(|m.triangles|, t requires 0 <= t < |m.triangles| =>
      Triangle(m.vertices[m.triangles[t].a], m.vertices[m.triangles[t].b], m.vertices[m.triangles[t].c]))
  }

  /** No directed edge occurs twice, and the way back along each occurs too. */
  ghost predicate Watertight<P(!new)>(faces: seq<Triangle<P>>) {
    && (forall s, t, i, j :: 0 <= s < |faces| && 0 <= t < |faces| && 0 <= i < 3 && 0 <= j < 3 ==>
          Edge(faces[s], i) == Edge(faces[t], j) ==> s == t && i == j)
    && (forall s, i :: 0 <= s < |faces| && 0 <= i < 3 ==> HasEdge(faces, Back(Edge(faces[s], i))))
  }

  ghost predicate HasEdge<P(!new)>(faces: seq<Triangle<P>>, e: (P, P)) {
    exists t, j :: 0 <= t < |faces| && 0 <= j < 3 && Edge(faces[t], j) == e
  }

  // ---- going round ----

  function Next(count: nat, i: nat): nat {
    if i + 1 == count then 0 else i + 1
  }

  function Previous(count: nat, i: nat): nat {
    if i > 0 then i - 1 else if count > 0 then count - 1 else 0
  }

  lemma {:induction false} NextIsModulo(count: nat, i: nat)
    requires i < count
    ensures (i + 1) % count == Next(count, i) && i % count == i
  {
  }

  function AtLeast(lower: nat, n: int): nat {
    if n < lower then lower else n
  }

  // ---- the solids, as the parts their faces come in ----

  datatype Solid = Cylinder(count: nat) | Cone(count: nat) | Sphere(around: nat, down: nat)

  datatype Place =
    | Rim(top: bool, i: nat)
    | Middle(top: bool)
    | Tip
    | Ring(ring: nat, index: nat)
    | Pole(north: bool)

  datatype Part =
    | SideA(i: nat)
    | SideB(i: nat)
    | Cap(top: bool, i: nat)
    | Slope(i: nat)
    | Base(i: nat)
    | Above(ring: nat, index: nat)
    | Below(ring: nat, index: nat)

  /** The faces a solid has. `Above` faces hang from a ring by two corners, `Below` faces stand on the next one. */
  predicate IsPart(solid: Solid, p: Part) {
    match solid
    case Cylinder(count) => (p.SideA? || p.SideB? || p.Cap?) && p.i < count
    case Cone(count) => (p.Slope? || p.Base?) && p.i < count
    case Sphere(around, down) =>
      (p.Above? && 0 < p.ring < down && p.index < around) || (p.Below? && p.ring + 1 < down && p.index < around)
  }

  function Round(solid: Solid): nat {
    if solid.Sphere? then solid.around else solid.count
  }

  function Rings(solid: Solid): nat {
    if solid.Sphere? then solid.down else 0
  }

  /** A place on a ring; the first and the last ring are one place each. */
  function OnRing(down: nat, ring: nat, index: nat): Place {
    if ring == 0 then Pole(true) else if ring == down then Pole(false) else Ring(ring, index)
  }

  function FaceOf(solid: Solid, p: Part): Triangle<Place> {
    var n, down := Round(solid), Rings(solid);
    match p
    case SideA(i) => Triangle(Rim(false, i), Rim(false, Next(n, i)), Rim(true, Next(n, i)))
    case SideB(i) => Triangle(Rim(false, i), Rim(true, Next(n, i)), Rim(true, i))
    case Cap(top, i) =>
      if top then Triangle(Middle(true), Rim(true, i), Rim(true, Next(n, i)))
      else Triangle(Middle(false), Rim(false, Next(n, i)), Rim(false, i))
    case Slope(i) => Triangle(Rim(false, i), Rim(false, Next(n, i)), Tip)
    case Base(i) => Triangle(Middle(false), Rim(false, Next(n, i)), Rim(false, i))
    case Above(r, i) => Triangle(OnRing(down, r, i), OnRing(down, r + 1, i), OnRing(down, r, Next(n, i)))
    case Below(r, i) => Triangle(OnRing(down, r, Next(n, i)), OnRing(down, r + 1, i), OnRing(down, r + 1, Next(n, i)))
  }

  /** Enough segments, and rings, for a surface to close. */
  predicate Proper(solid: Solid) {
    Round(solid) >= 3 && (solid.Sphere? ==> solid.down >= 2)
  }

  // ---- which corner of which face a directed edge starts from ----

  function CylinderOwner(count: nat, x: Place, y: Place): (Part, nat) {
    if x.Middle? && y.Rim? then if x.top then (Cap(true, y.i), 0) else (Cap(false, Previous(count, y.i)), 0)
    else if x.Rim? && y.Middle? then if y.top then (Cap(true, Previous(count, x.i)), 2) else (Cap(false, x.i), 2)
    else if !x.Rim? || !y.Rim? then (SideA(0), 0)
    else if x.top && y.top then if x.i == Next(count, y.i) then (SideB(y.i), 1) else (Cap(true, x.i), 1)
    else if x.top then if x.i == y.i then (SideB(y.i), 2) else (SideA(y.i), 2)
    else if y.top then if x.i == y.i then (SideA(Previous(count, x.i)), 1) else (SideB(x.i), 0)
    else if y.i == Next(count, x.i) then (SideA(x.i), 0)
    else (Cap(false, y.i), 1)
  }

  function ConeOwner(count: nat, x: Place, y: Place): (Part, nat) {
    if x.Middle? && y.Rim? then (Base(Previous(count, y.i)), 0)
    else if x.Rim? && y.Middle? then (Base(x.i), 2)
    else if x.Tip? && y.Rim? then (Slope(y.i), 2)
    else if x.Rim? && y.Tip? then (Slope(Previous(count, x.i)), 1)
    else if !x.Rim? || !y.Rim? then (Slope(0), 0)
    else if y.i == Next(count, x.i) then (Slope(x.i), 0)
    else (Base(y.i), 1)
  }

  function SphereOwner(around: nat, down: nat, x: Place, y: Place): (Part, nat) {
    if x.Pole? && y.Ring? then
      if x.north then (Below(0, y.index), 0) else (Above(y.ring, Previous(around, y.index)), 1)
    else if x.Ring? && y.Pole? then
      if y.north then (Below(0, Previous(around, x.index)), 2) else (Above(x.ring, x.index), 0)
    else if !x.Ring? || !y.Ring? then (Above(0, 0), 0)
    else if x.ring == y.ring then
      if y.index == Next(around, x.index) then (Below(Previous(0, x.ring), x.index), 1) else (Above(x.ring, y.index), 2)
    else if x.ring < y.ring then if x.index == y.index then (Above(x.ring, x.index), 0) else (Below(x.ring, y.index), 0)
    else if x.index == y.index then (Below(y.ring, Previous(around, y.index)), 2)
    else (Above(y.ring, x.index), 1)
  }

  function Owner(solid: Solid, e: (Place, Place)): (Part, nat) {
    match solid
    case Cylinder(count) => CylinderOwner(count, e.0, e.1)
    case Cone(count) => ConeOwner(count, e.0, e.1)
    case Sphere(around, down) => SphereOwner(around, down, e.0, e.1)
  }

  lemma {:induction false} CylinderOwns(count: nat, p: Part, k: nat)
    requires count >= 3 && IsPart(Cylinder(count), p) && k < 3
    ensures Owned(Cylinder(count), p, k)
  {
  }

  lemma {:induction false} ConeOwns(count: nat, p: Part, k: nat)
    requires count >= 3 && IsPart(Cone(count), p) && k < 3
    ensures Owned(Cone(count), p, k)
  {
  }

  lemma {:induction false} SphereOwns(around: nat, down: nat, p: Part, k: nat)
    requires around >= 3 && down >= 2 && IsPart(Sphere(around, down), p) && k < 3
    ensures Owned(Sphere(around, down), p, k)
  {
    if k == 0 {
    } else if k == 1 {
    } else {
    }
  }

  /** The edge says which face and corner it starts from, and its way back starts from one too. */
  predicate Owned(solid: Solid, p: Part, k: nat)
    requires k < 3
  {
    var e := Edge(FaceOf(solid, p), k);
    var (q, j) := Owner(solid, Back(e));
    Owner(solid, e) == (p, k) && IsPart(solid, q) && j < 3 && Edge(FaceOf(solid, q), j) == Back(e)
  }

  lemma {:induction false} Owns(solid: Solid, p: Part, k: nat)
    requires Proper(solid) && IsPart(solid, p) && k < 3
    ensures Owned(solid, p, k)
  {
    match solid
    case Cylinder(count) => CylinderOwns(count, p, k);
    case Cone(count) => ConeOwns(count, p, k);
    case Sphere(around, down) => SphereOwns(around, down, p, k);
  }

  // ---- what is drawn so far ----

  /** These triangles are of these parts, each part at most once. */
  ghost predicate Drawn(solid: Solid, m: Mesh<Place>, parts: seq<Part>) {
    && InRange(m) && |parts| == |m.triangles| && NoRepeats(parts)
    && forall t :: 0 <= t < |parts| ==> IsPart(solid, parts[t]) && Faces(m)[t] == FaceOf(solid, parts[t])
  }

  /** The mesh is the solid: all its faces, in some order, and closed. */
  ghost predicate Closed(solid: Solid, m: Mesh<Place>) {
    && InRange(m) && Watertight(Faces(m))
    && (forall p :: IsPart(solid, p) ==> FaceOf(solid, p) in Faces(m))
    && (forall t :: 0 <= t < |m.triangles| ==> exists p :: IsPart(solid, p) && Faces(m)[t] == FaceOf(solid, p))
  }

  lemma {:induction false} AllPartsMakeItClosed(solid: Solid, m: Mesh<Place>, parts: seq<Part>)
    requires Proper(solid) && Drawn(solid, m, parts) && forall p :: IsPart(solid, p) ==> p in parts
    ensures Closed(solid, m)
  {
    var faces := Faces(m);
    forall s, t, i, j | 0 <= s < |faces| && 0 <= t < |faces| && 0 <= i < 3 && 0 <= j < 3
                        && Edge(faces[s], i) == Edge(faces[t], j)
      ensures s == t && i == j
    {
      Owns(solid, parts[s], i);
      Owns(solid, parts[t], j);
    }
    forall s, i | 0 <= s < |faces| && 0 <= i < 3 ensures HasEdge(faces, Back(Edge(faces[s], i))) {
      Owns(solid, parts[s], i);
      var (q, j) := Owner(solid, Back(Edge(faces[s], i)));
      assert q in parts;
      var t :| 0 <= t < |parts| && parts[t] == q;
      assert Edge(faces[t], j) == Back(Edge(faces[s], i));
    }
  }

  lemma {:induction false} OneMorePart<L>(parts: seq<L>, p: L)
    requires NoRepeats(parts) && p !in parts
    ensures NoRepeats(parts + [p])
    ensures forall q :: q in parts + [p] <==> q in parts || q == p
  {
  }

  lemma {:induction false} OneMoreFace(solid: Solid, m: Mesh<Place>, parts: seq<Part>, t: Triangle<nat>, p: Part)
    requires Drawn(solid, m, parts) && IsPart(solid, p) && p !in parts
    requires t.a < |m.vertices| && t.b < |m.vertices| && t.c < |m.vertices|
    requires Triangle(m.vertices[t.a], m.vertices[t.b], m.vertices[t.c]) == FaceOf(solid, p)
    ensures Drawn(solid, m.(triangles := m.triangles + [t]), parts + [p])
    ensures forall q :: q in parts + [p] <==> q in parts || q == p
  {
    OneMorePart(parts, p);
  }

  lemma {:induction false} OneMoreVertex(solid: Solid, m: Mesh<Place>, parts: seq<Part>, q: Place)
    requires Drawn(solid, m, parts)
    ensures Drawn(solid, m.(vertices := m.vertices + [q]), parts)
  {
    var m' := m.(vertices := m.vertices + [q]);
    assert Faces(m') == Faces(m);
  }

  // ---- cylinder ----

  /** One rim of vertices at a height. */
  method RimVertices(count: nat, top: bool) returns (v: seq<Place>)
    requires count > 0
    ensures |v| == count && forall i :: 0 <= i < count ==> v[i] == Rim(top, i)
  {
    v := [];
    for index := 0 to count
      invariant |v| == index && forall i :: 0 <= i < index ==> v[i] == Rim(top, i)
    {
      NextIsModulo(count, index);
      v := v + [Rim(top, index % count)];
    }
  }

  /** A cap's vertices: its middle and a rim of its own. */
  method AddCapVertices(solid: Solid, top: bool, mesh: Mesh<Place>, ghost parts: seq<Part>) returns (m: Mesh<Place>)
    requires Round(solid) > 0 && Drawn(solid, mesh, parts)
    ensures Drawn(solid, m, parts) && m.triangles == mesh.triangles
    ensures |m.vertices| == |mesh.vertices| + 1 + Round(solid) && m.vertices[|mesh.vertices|] == Middle(top)
    ensures forall i :: 0 <= i < Round(solid) ==> m.vertices[|mesh.vertices| + 1 + i] == Rim(top, i)
  {
    var center, count := |mesh.vertices|, Round(solid);
    OneMoreVertex(solid, mesh, parts, Middle(top));
    m := mesh.(vertices := mesh.vertices + [Middle(top)]);
    for index := 0 to count
      invariant Drawn(solid, m, parts) && m.triangles == mesh.triangles
      invariant |m.vertices| == center + 1 + index && m.vertices[center] == Middle(top)
      invariant forall i :: 0 <= i < index ==> m.vertices[center + 1 + i] == Rim(top, i)
    {
      NextIsModulo(count, index);
      OneMoreVertex(solid, m, parts, Rim(top, index % count));
      m := m.(vertices := m.vertices + [Rim(top, index % count)]);
    }
  }

  /** A cap: its vertices and a face to each stretch of its rim. */
  method AddCap(count: nat, top: bool, mesh: Mesh<Place>, ghost parts: seq<Part>)
    returns (m: Mesh<Place>, ghost drawn: seq<Part>)
    requires count >= 3 && Drawn(Cylinder(count), mesh, parts) && forall i :: Cap(top, i) !in parts
    ensures Drawn(Cylinder(count), m, drawn) && |m.triangles| == |mesh.triangles| + count
    ensures forall p :: p in drawn <==> p in parts || (p.Cap? && p.top == top && p.i < count)
  {
    var center := |mesh.vertices|;
    m := AddCapVertices(Cylinder(count), top, mesh, parts);
    drawn := parts;
    for index := 0 to count
      invariant Drawn(Cylinder(count), m, drawn) && |m.triangles| == |mesh.triangles| + index
      invariant |m.vertices| == center + 1 + count && m.vertices[center] == Middle(top)
      invariant forall i :: 0 <= i < count ==> m.vertices[center + 1 + i] == Rim(top, i)
      invariant forall p :: p in drawn <==> p in parts || (p.Cap? && p.top == top && p.i < index)
    {
      NextIsModulo(count, index);
      var here, next := center + 1 + index, center + 1 + (index + 1) % count;
      var t: Triangle<nat> := if top then Triangle(center, here, next) else Triangle(center, next, here);
      OneMoreFace(Cylinder(count), m, drawn, t, Cap(top, index));
      m := m.(triangles := m.triangles + [t]);
      drawn := drawn + [Cap(top, index)];
    }
  }

  /** The faces round the side, two for each stretch. */
  method SideFaces(count: nat, v: seq<Place>) returns (m: Mesh<Place>, ghost drawn: seq<Part>)
    requires count >= 3 && |v| == 2 * count
    requires forall i :: 0 <= i < count ==> v[i] == Rim(false, i) && v[count + i] == Rim(true, i)
    ensures Drawn(Cylinder(count), m, drawn) && m.vertices == v && |m.triangles| == 2 * count
    ensures forall p :: p in drawn <==> (p.SideA? || p.SideB?) && p.i < count
  {
    m, drawn := Mesh(v, []), [];
    for index := 0 to count
      invariant Drawn(Cylinder(count), m, drawn) && m.vertices == v && |m.triangles| == 2 * index
      invariant forall p :: p in drawn <==> (p.SideA? || p.SideB?) && p.i < index
    {
      NextIsModulo(count, index);
      var next: nat := (index + 1) % count;
      var a: Triangle<nat>, b: Triangle<nat> := Triangle(index, next, count + next), Triangle(index, count + next, count + index);
      OneMoreFace(Cylinder(count), m, drawn, a, SideA(index));
      m, drawn := m.(triangles := m.triangles + [a]), drawn + [SideA(index)];
      OneMoreFace(Cylinder(count), m, drawn, b, SideB(index));
      m, drawn := m.(triangles := m.triangles + [b]), drawn + [SideB(index)];
    }
  }

  /** cylinderMesh(): every index is in range and the surface is closed, for every number of segments. */
  method CylinderMesh(segments: int) returns (mesh: Mesh<Place>)
    ensures Closed(Cylinder(AtLeast(3, segments)), mesh) && |mesh.triangles| == 4 * AtLeast(3, segments)
  {
    var count := AtLeast(3, segments);
    var bottom := RimVertices(count, false);
    var top := RimVertices(count, true);
    ghost var parts;
    mesh, parts := SideFaces(count, bottom + top);
    mesh, parts := AddCap(count, true, mesh, parts);
    mesh, parts := AddCap(count, false, mesh, parts);
    AllPartsMakeItClosed(Cylinder(count), mesh, parts);
  }

  // ---- cone ----

  /** The side: a rim, and a tip of its own to each face, all tips in one place. */
  method Slopes(count: nat, v: seq<Place>) returns (m: Mesh<Place>, ghost drawn: seq<Part>)
    requires count >= 3 && |v| == 2 * count
    requires forall i :: 0 <= i < count ==> v[i] == Rim(false, i)
    requires forall i :: count <= i < 2 * count ==> v[i] == Tip
    ensures Drawn(Cone(count), m, drawn) && m.vertices == v && |m.triangles| == count
    ensures forall p :: p in drawn <==> p.Slope? && p.i < count
  {
    m, drawn := Mesh(v, []), [];
    for index := 0 to count
      invariant Drawn(Cone(count), m, drawn) && m.vertices == v && |m.triangles| == index
      invariant forall p :: p in drawn <==> p.Slope? && p.i < index
    {
      NextIsModulo(count, index);
      var t: Triangle<nat> := Triangle(index, (index + 1) % count, count + index);
      OneMoreFace(Cone(count), m, drawn, t, Slope(index));
      m, drawn := m.(triangles := m.triangles + [t]), drawn + [Slope(index)];
    }
  }

  method AddBase(count: nat, mesh: Mesh<Place>, ghost parts: seq<Part>) returns (m: Mesh<Place>, ghost drawn: seq<Part>)
    requires count >= 3 && Drawn(Cone(count), mesh, parts) && forall i :: Base(i) !in parts
    ensures Drawn(Cone(count), m, drawn) && |m.triangles| == |mesh.triangles| + count
    ensures forall p :: p in drawn <==> p in parts || (p.Base? && p.i < count)
  {
    var center := |mesh.vertices|;
    m := AddCapVertices(Cone(count), false, mesh, parts);
    drawn := parts;
    for index := 0 to count
      invariant Drawn(Cone(count), m, drawn) && |m.triangles| == |mesh.triangles| + index
      invariant |m.vertices| == center + 1 + count && m.vertices[center] == Middle(false)
      invariant forall i :: 0 <= i < count ==> m.vertices[center + 1 + i] == Rim(false, i)
      invariant forall p :: p in drawn <==> p in parts || (p.Base? && p.i < index)
    {
      NextIsModulo(count, index);
      var t: Triangle<nat> := Triangle(center, center + 1 + (index + 1) % count, center + 1 + index);
      OneMoreFace(Cone(count), m, drawn, t, Base(index));
      m, drawn := m.(triangles := m.triangles + [t]), drawn + [Base(index)];
    }
  }

  /** coneMesh(). */
  method ConeMesh(segments: int) returns (mesh: Mesh<Place>)
    ensures Closed(Cone(AtLeast(3, segments)), mesh) && |mesh.triangles| == 2 * AtLeast(3, segments)
  {
    var count := AtLeast(3, segments);
    var rim := RimVertices(count, false);
    ghost var parts;
    mesh, parts := Slopes(count, rim + seq(count, _ => Tip));
    mesh, parts := AddBase(count, mesh, parts);
    AllPartsMakeItClosed(Cone(count), mesh, parts);
  }

  // ---- sphere ----

  function At(around: nat, ring: nat, index: nat): nat {
    ring * (around + 1) + index
  }

  function Wrapped(around: nat, index: nat): nat {
    if index == around then 0 else index
  }

  lemma {:induction false} OneRingOn(around: nat, ring: nat)
    ensures At(around, ring + 1, 0) == At(around, ring, 0) + around + 1
  {
  }

  /** The rings laid so far, the last vertex of each lying on its first. */
  ghost predicate Laid(around: nat, down: nat, v: seq<Place>, rings: nat) {
    |v| == At(around, rings, 0) && forall r, i :: 0 <= r < rings && 0 <= i <= around ==> LiesOn(around, down, v, r, i)
  }

  predicate LiesOn(around: nat, down: nat, v: seq<Place>, r: nat, i: nat) {
    At(around, r, i) < |v| && v[At(around, r, i)] == OnRing(down, r, Wrapped(around, i))
  }

  method RingVertices(around: nat, down: nat, ring: nat) returns (v: seq<Place>)
    ensures |v| == around + 1 && forall i :: 0 <= i <= around ==> v[i] == OnRing(down, ring, Wrapped(around, i))
  {
    v := [];
    for index := 0 to around + 1
      invariant |v| == index && forall i :: 0 <= i < index ==> v[i] == OnRing(down, ring, Wrapped(around, i))
    {
      v := v + [OnRing(down, ring, Wrapped(around, index))];
    }
  }

  lemma {:induction false} OneMoreRing(around: nat, down: nat, v: seq<Place>, ring: nat, more: seq<Place>)
    requires Laid(around, down, v, ring)
    requires |more| == around + 1 && forall i :: 0 <= i <= around ==> more[i] == OnRing(down, ring, Wrapped(around, i))
    ensures Laid(around, down, v + more, ring + 1)
  {
    OneRingOn(around, ring);
    forall r, i | 0 <= r < ring + 1 && 0 <= i <= around ensures LiesOn(around, down, v + more, r, i) {
      if r < ring {
        assert LiesOn(around, down, v, r, i);
      } else {
        assert At(around, ring, i) == |v| + i;
      }
    }
  }

  method SphereVertices(around: nat, down: nat) returns (v: seq<Place>)
    ensures Laid(around, down, v, down + 1)
  {
    v := [];
    for ring := 0 to down + 1
      invariant Laid(around, down, v, ring)
    {
      var more := RingVertices(around, down, ring);
      OneMoreRing(around, down, v, ring, more);
      v := v + more;
    }
  }

  lemma {:induction false} SphereCorners(around: nat, down: nat, v: seq<Place>, ring: nat, index: nat)
    requires Laid(around, down, v, down + 1) && ring < down && index < around
    ensures At(around, ring, index) < |v| && v[At(around, ring, index)] == OnRing(down, ring, index)
    ensures At(around, ring + 1, index) < |v| && v[At(around, ring + 1, index)] == OnRing(down, ring + 1, index)
    ensures At(around, ring, index + 1) < |v| && v[At(around, ring, index + 1)] == OnRing(down, ring, Next(around, index))
    ensures At(around, ring + 1, index + 1) < |v|
    ensures v[At(around, ring + 1, index + 1)] == OnRing(down, ring + 1, Next(around, index))
  {
    assert LiesOn(around, down, v, ring, index) && LiesOn(around, down, v, ring + 1, index);
    assert LiesOn(around, down, v, ring, index + 1) && LiesOn(around, down, v, ring + 1, index + 1);
  }

  /** A sphere's faces before this ring, and on it before this index. */
  predicate Reached(around: nat, down: nat, p: Part, ring: nat, index: nat) {
    IsPart(Sphere(around, down), p) && (p.ring < ring || (p.ring == ring && p.index < index))
  }

  function AboveAt(around: nat, ring: nat, index: nat): Triangle<nat> {
    Triangle(At(around, ring, index), At(around, ring + 1, index), At(around, ring, index + 1))
  }

  function BelowAt(around: nat, ring: nat, index: nat): Triangle<nat> {
    Triangle(At(around, ring, index + 1), At(around, ring + 1, index), At(around, ring + 1, index + 1))
  }

  lemma {:induction false} OneMoreAbove(around: nat, down: nat, m: Mesh<Place>, parts: seq<Part>, ring: nat, index: nat)
    requires Laid(around, down, m.vertices, down + 1) && 0 < ring < down && index < around
    requires Drawn(Sphere(around, down), m, parts) && Above(ring, index) !in parts
    ensures Drawn(Sphere(around, down), m.(triangles := m.triangles + [AboveAt(around, ring, index)]), parts + [Above(ring, index)])
  {
    SphereCorners(around, down, m.vertices, ring, index);
    OneMoreFace(Sphere(around, down), m, parts, AboveAt(around, ring, index), Above(ring, index));
  }

  lemma {:induction false} OneMoreBelow(around: nat, down: nat, m: Mesh<Place>, parts: seq<Part>, ring: nat, index: nat)
    requires Laid(around, down, m.vertices, down + 1) && ring + 1 < down && index < around
    requires Drawn(Sphere(around, down), m, parts) && Below(ring, index) !in parts
    ensures Drawn(Sphere(around, down), m.(triangles := m.triangles + [BelowAt(around, ring, index)]), parts + [Below(ring, index)])
  {
    SphereCorners(around, down, m.vertices, ring, index);
    OneMoreFace(Sphere(around, down), m, parts, BelowAt(around, ring, index), Below(ring, index));
  }

  /** The faces of a sphere drawn so far are those before this ring, and on it before this index. */
  ghost predicate Banded(around: nat, down: nat, m: Mesh<Place>, parts: seq<Part>, ring: nat, index: nat) {
    Drawn(Sphere(around, down), m, parts) && forall p :: p in parts <==> Reached(around, down, p, ring, index)
  }

  lemma {:induction false} BandStep(around: nat, down: nat, m: Mesh<Place>, parts: seq<Part>, ring: nat, index: nat,
                                    m': Mesh<Place>, parts': seq<Part>)
    requires Laid(around, down, m.vertices, down + 1) && ring < down && index < around
    requires Banded(around, down, m, parts, ring, index) && m'.vertices == m.vertices
    requires m'.triangles == m.triangles + (if ring > 0 then [AboveAt(around, ring, index)] else [])
                             + (if ring < down - 1 then [BelowAt(around, ring, index)] else [])
    requires parts' == parts + (if ring > 0 then [Above(ring, index)] else [])
                       + (if ring < down - 1 then [Below(ring, index)] else [])
    ensures Banded(around, down, m', parts', ring, index + 1)
  {
    var half, halfParts := m, parts;
    if ring > 0 {
      OneMoreAbove(around, down, m, parts, ring, index);
      half := m.(triangles := m.triangles + [AboveAt(around, ring, index)]);
      halfParts := parts + [Above(ring, index)];
    }
    if ring < down - 1 {
      OneMoreBelow(around, down, half, halfParts, ring, index);
    }
    BandParts(around, down, parts, ring, index, parts');
    assert m' == if ring < down - 1 then half.(triangles := half.triangles + [BelowAt(around, ring, index)]) else half;
  }

  lemma {:induction false} BandParts(around: nat, down: nat, parts: seq<Part>, ring: nat, index: nat, parts': seq<Part>)
    requires ring < down && index < around && forall p :: p in parts <==> Reached(around, down, p, ring, index)
    requires parts' == parts + (if ring > 0 then [Above(ring, index)] else [])
                       + (if ring < down - 1 then [Below(ring, index)] else [])
    ensures forall p :: p in parts' <==> Reached(around, down, p, ring, index + 1)
  {
  }

  /** The faces between one ring and the next. */
  method AddBand(around: nat, down: nat, ring: nat, mesh: Mesh<Place>, ghost parts: seq<Part>)
    returns (m: Mesh<Place>, ghost drawn: seq<Part>)
    requires ring < down && Laid(around, down, mesh.vertices, down + 1) && Banded(around, down, mesh, parts, ring, 0)
    ensures m.vertices == mesh.vertices && Banded(around, down, m, drawn, ring, around)
    ensures |m.triangles| == |mesh.triangles| + FacesEach(down, ring) * around
  {
    m, drawn := mesh, parts;
    for index := 0 to around
      invariant m.vertices == mesh.vertices && Banded(around, down, m, drawn, ring, index)
      invariant |m.triangles| == |mesh.triangles| + FacesEach(down, ring) * index
    {
      ghost var before, drawnBefore := m, drawn;
      if ring > 0 {
        m, drawn := m.(triangles := m.triangles + [AboveAt(around, ring, index)]), drawn + [Above(ring, index)];
      }
      if ring < down - 1 {
        m, drawn := m.(triangles := m.triangles + [BelowAt(around, ring, index)]), drawn + [Below(ring, index)];
      }
      BandStep(around, down, before, drawnBefore, ring, index, m, drawn);
    }
  }

  function FacesEach(down: nat, ring: nat): nat {
    (if ring > 0 then 1 else 0) + (if ring + 1 < down then 1 else 0)
  }

  function FacesBefore(around: nat, down: nat, ring: nat): nat {
    if ring == 0 then 0 else FacesBefore(around, down, ring - 1) + FacesEach(down, ring - 1) * around
  }

  lemma {:induction false} FacesCounted(around: nat, down: nat, ring: nat)
    requires 0 < ring <= down && down >= 2
    ensures ring < down ==> FacesBefore(around, down, ring) == around * (2 * ring - 1)
    ensures ring == down ==> FacesBefore(around, down, ring) == 2 * around * (down - 1)
    decreases ring
  {
    if ring > 1 {
      FacesCounted(around, down, ring - 1);
      OneBandMore(around, 2 * ring - 3, FacesEach(down, ring - 1));
    }
    OneBandMore(around, down - 1, down - 1);
  }

  lemma {:induction false} OneBandMore(around: int, faces: int, each: int)
    ensures around * faces + each * around == around * (faces + each)
    ensures around * (2 * faces) == 2 * around * faces
  {
  }

  /** sphereMesh(): the first and last rings shrink to the poles, and the seam closes on itself. */
  method SphereMesh(segments: int, rings: int) returns (mesh: Mesh<Place>)
    ensures Closed(Sphere(AtLeast(3, segments), AtLeast(2, rings)), mesh)
    ensures |mesh.triangles| == 2 * AtLeast(3, segments) * (AtLeast(2, rings) - 1)
  {
    var around, down := AtLeast(3, segments), AtLeast(2, rings);
    var v := SphereVertices(around, down);
    mesh := Mesh(v, []);
    ghost var parts: seq<Part> := [];
    for ring := 0 to down
      invariant mesh.vertices == v && Banded(around, down, mesh, parts, ring, 0)
      invariant |mesh.triangles| == FacesBefore(around, down, ring)
    {
      mesh, parts := AddBand(around, down, ring, mesh, parts);
    }
    FacesCounted(around, down, down);
    AllPartsMakeItClosed(Sphere(around, down), mesh, parts);
  }
}
