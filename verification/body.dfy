/**
 The fixed body layout built by the display routine: 26 parts created in a
 fixed order, each attached to a parent created before it.

 Creation order (index: part): 0 trunk; 1 head; 2-3 eyes; 4 right arm;
 5 right elbow; 6-9 right fingers; 10 right thigh; 11 right knee; 12-14 right
 toes; 15 left arm; 16 left elbow; 17-20 left fingers; 21 left thigh; 22 left
 knee; 23-25 left toes.
 */
module Body {
  import opened Options
  import opened Transform
  import opened Scene

  datatype Side = Right | Left

  datatype Part =
    | Trunk
    | Head
    | Eye(eye: nat)
    | Arm(side: Side)
    | Elbow(side: Side)
    | Finger(side: Side, finger: nat)
    | Thigh(side: Side)
    | Knee(side: Side)
    | Toe(side: Side, toe: nat)

  const PartCount: nat := 26

  /** The parts of the figure: two eyes, four fingers per hand, three toes
      per foot, one of everything else per side. */
  predicate ValidPart(p: Part)
  {
    match p
    case Eye(k) => k < 2
    case Finger(_, k) => k < 4
    case Toe(_, k) => k < 3
    case _ => true
  }

  /** Which part the display routine creates `i`-th. */
  function PartAt(i: nat): (p: Part)
    requires i < PartCount
    ensures ValidPart(p)
  {
    if i == 0 then Trunk
    else if i == 1 then Head
    else if i < 4 then Eye(i - 2)
    else if i < 15 then SidePartAt(Right, i - 4)
    else SidePartAt(Left, i - 15)
  }

  /** The eleven parts of one side, in the order both sides are built:
      arm, elbow, four fingers, thigh, knee, three toes. */
  function SidePartAt(s: Side, j: nat): (p: Part)
    requires j < 11
    ensures ValidPart(p) && !p.Trunk? && !p.Head? && !p.Eye? && p.side == s
  {
    if j == 0 then Arm(s)
    else if j == 1 then Elbow(s)
    else if j < 6 then Finger(s, j - 2)
    else if j == 6 then Thigh(s)
    else if j == 7 then Knee(s)
    else Toe(s, j - 8)
  }

  function SideBase(s: Side): nat
  {
    if s == Right then 4 else 15
  }

  /** Where the display routine creates part `p`. */
  function IndexOf(p: Part): (i: nat)
    requires ValidPart(p)
    ensures i < PartCount
  {
    match p
    case Trunk => 0
    case Head => 1
    case Eye(k) => 2 + k
    case Arm(s) => SideBase(s)
    case Elbow(s) => SideBase(s) + 1
    case Finger(s, k) => SideBase(s) + 2 + k
    case Thigh(s) => SideBase(s) + 6
    case Knee(s) => SideBase(s) + 7
    case Toe(s, k) => SideBase(s) + 8 + k
  }

  /** Every part is created exactly once: creation order and `IndexOf` are
      inverse to each other. */
  lemma LayoutIsBijective(i: nat, p: Part)
    requires i < PartCount
    requires ValidPart(p)
    ensures IndexOf(PartAt(i)) == i
    ensures PartAt(IndexOf(p)) == p
  {
  }

  /** The parent each part is handed when the display routine creates it,
      as an index in creation order. */
  function ParentIndex(i: nat): Option<nat>
    requires i < PartCount
  {
    if i == 0 then None
    else if i == 1 then Some(0)        // head on trunk
    else if i < 4 then Some(1)         // eyes on head
    else if i == 4 then Some(0)        // right arm on trunk
    else if i == 5 then Some(4)        // right elbow on right arm
    else if i < 10 then Some(5)        // right fingers on right elbow
    else if i == 10 then Some(0)       // right thigh on trunk
    else if i == 11 then Some(10)      // right knee on right thigh
    else if i < 15 then Some(11)       // right toes on right knee
    else if i == 15 then Some(0)       // left arm on trunk
    else if i == 16 then Some(15)      // left elbow on left arm
    else if i < 21 then Some(16)       // left fingers on left elbow
    else if i == 21 then Some(0)       // left thigh on trunk
    else if i == 22 then Some(21)      // left knee on left thigh
    else Some(22)                      // left toes on left knee
  }

  /** What each part is attached to, anatomically. */
  function AnatomicalParent(p: Part): Option<Part>
  {
    match p
    case Trunk => None
    case Head => Some(Trunk)
    case Eye(_) => Some(Head)
    case Arm(_) => Some(Trunk)
    case Elbow(s) => Some(Arm(s))
    case Finger(s, _) => Some(Elbow(s))
    case Thigh(_) => Some(Trunk)
    case Knee(s) => Some(Thigh(s))
    case Toe(s, _) => Some(Knee(s))
  }

  /** How many attachments separate a part from the trunk. */
  function Generation(p: Part): nat
  {
    match p
    case Trunk => 0
    case Head | Arm(_) | Thigh(_) => 1
    case Eye(_) | Elbow(_) | Knee(_) => 2
    case Finger(_, _) | Toe(_, _) => 3
  }

  /** The parent table agrees with the anatomy: the trunk alone has no
      parent, and every other part is attached to its anatomical parent. */
  lemma LayoutFollowsAnatomy(i: nat)
    requires i < PartCount
    ensures ParentIndex(i) == None <==> i == 0
    ensures ParentIndex(i) == None <==> AnatomicalParent(PartAt(i)) == None
    ensures ParentIndex(i).Some? ==>
              ParentIndex(i).value < i
              && AnatomicalParent(PartAt(i)) == Some(PartAt(ParentIndex(i).value))
  {
  }

  /** The hierarchy the display routine builds, given each part's object
      transform in creation order. */
  function BodyScene(objects: seq<Matrix>): (scene: seq<Entity>)
    requires |objects| == PartCount
    ensures |scene| == PartCount
    ensures ParentsFirst(scene)
    ensures forall i :: 0 <= i < PartCount ==>
              scene[i].objectMatrix == objects[i] && scene[i].parent == ParentIndex(i)
  {
    seq(PartCount, i requires 0 <= i < PartCount => Entity(objects[i], ParentIndex(i)))
  }

  /** A part is one generation below its anatomical parent. */
  lemma GenerationStep(p: Part)
    ensures AnatomicalParent(p).Some? ==> Generation(p) == Generation(AnatomicalParent(p).value) + 1
    ensures AnatomicalParent(p).None? <==> Generation(p) == 0
  {
  }

  /** The depth of every part in the built hierarchy is its anatomical
      generation. */
  lemma {:induction false} DepthIsGeneration(objects: seq<Matrix>, i: nat)
    requires |objects| == PartCount
    requires i < PartCount
    ensures Depth(BodyScene(objects), i) == Generation(PartAt(i))
    decreases i
  {
    var scene := BodyScene(objects);
    var p := PartAt(i);
    LayoutFollowsAnatomy(i);
    GenerationStep(p);
    match ParentIndex(i)
    case None =>
      assert Path(scene, i) == [i];
    case Some(j) =>
      DepthIsGeneration(objects, j);
      assert Path(scene, i) == Path(scene, j) + [i];
      assert AnatomicalParent(p).value == PartAt(j);
  }

  /** The hierarchy is three attachments deep at most, reached by the
      fingers (trunk, arm, elbow, finger) and the toes. */
  lemma {:induction false} MaxDepthIsThree(objects: seq<Matrix>, i: nat)
    requires |objects| == PartCount
    requires i < PartCount
    ensures Depth(BodyScene(objects), i) <= 3
    ensures Depth(BodyScene(objects), i) == 3 <==> PartAt(i).Finger? || PartAt(i).Toe?
  {
    DepthIsGeneration(objects, i);
  }
}
