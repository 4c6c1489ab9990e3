/**
 The hierarchy of body parts and how their model-view transforms compose.

 Every part is an `Entity` holding its object transform (relative to its
 parent's frame) and the index of its parent in creation order, or `None`
 for the root. Drawing a part sets its model-view to `inv(eye) * object`
 for the root and to `parent.modelView * object` otherwise. Parts are
 created and drawn one at a time, each after its parent, so a parent's
 model-view is always known when a child needs it.
 */
module Scene {
  import opened Options
  import opened Transform

  datatype Entity = Entity(objectMatrix: Matrix, parent: Option<nat>)

  /** Every parent was created before its child. */
  predicate ParentsFirst(scene: seq<Entity>)
  {
    forall i :: 0 <= i < |scene| && scene[i].parent.Some? ==> scene[i].parent.value < i
  }

  /** The model-view rule of `Entity::draw`, part by part. */
  function ModelView(scene: seq<Entity>, eye: Matrix, i: nat): Matrix
    requires ParentsFirst(scene)
    requires i < |scene|
    decreases i
  {
    match scene[i].parent
    case None => Mul(Inv(eye), scene[i].objectMatrix)
    case Some(j) => Mul(ModelView(scene, eye, j), scene[i].objectMatrix)
  }

  /** The chain of parts from a root down to part `i`, root first: each part
      on it is the parent of the next. */
  function Path(scene: seq<Entity>, i: nat): (path: seq<nat>)
    requires ParentsFirst(scene)
    requires i < |scene|
    ensures |path| > 0 && path[|path| - 1] == i
    ensures forall k :: 0 <= k < |path| ==> path[k] <= i
    ensures scene[path[0]].parent == None
    ensures forall k :: 0 < k < |path| ==> scene[path[k]].parent == Some(path[k - 1])
    decreases i
  {
    match scene[i].parent
    case None => [i]
    case Some(j) => Path(scene, j) + [i]
  }

  /** The number of ancestors of part `i`. */
  function Depth(scene: seq<Entity>, i: nat): nat
    requires ParentsFirst(scene)
    requires i < |scene|
  {
    |Path(scene, i)| - 1
  }

  predicate ValidIndices(scene: seq<Entity>, path: seq<nat>)
  {
    forall k :: 0 <= k < |path| ==> path[k] < |scene|
  }

  /** The product of the object transforms of the parts on `path`, in order. */
  function Compose(scene: seq<Entity>, path: seq<nat>): Matrix
    requires ValidIndices(scene, path)
  {
    if path == [] then Identity
    else Mul(Compose(scene, path[..|path| - 1]), scene[path[|path| - 1]].objectMatrix)
  }

  lemma {:induction false} ComposeAppend(scene: seq<Entity>, p: seq<nat>, q: seq<nat>)
    requires ValidIndices(scene, p) && ValidIndices(scene, q)
    ensures ValidIndices(scene, p + q)
    ensures Compose(scene, p + q) == Mul(Compose(scene, p), Compose(scene, q))
    decreases |q|
  {
    if q == [] {
      assert p + q == p;
    } else {
      var q' := q[..|q| - 1];
      assert (p + q)[..|p + q| - 1] == p + q';
      ComposeAppend(scene, p, q');
    }
  }

  /** A part's model-view is `inv(eye)` times the object transforms along
      the chain from the root to the part, root first. */
  lemma {:induction false} ModelViewComposesPath(scene: seq<Entity>, eye: Matrix, i: nat)
    requires ParentsFirst(scene)
    requires i < |scene|
    ensures ValidIndices(scene, Path(scene, i))
    ensures ModelView(scene, eye, i) == Mul(Inv(eye), Compose(scene, Path(scene, i)))
    decreases i
  {
    var path := Path(scene, i);
    match scene[i].parent
    case None =>
      assert path == [i];
      assert path[..0] == [];
    case Some(j) =>
      ModelViewComposesPath(scene, eye, j);
      assert path[..|path| - 1] == Path(scene, j);
  }

  /** The part that sits `k` steps down the chain to `i` has as its own chain
      the first `k + 1` entries of `i`'s chain. */
  lemma {:induction false} PathPrefix(scene: seq<Entity>, i: nat, k: nat)
    requires ParentsFirst(scene)
    requires i < |scene|
    requires k < |Path(scene, i)|
    ensures Path(scene, Path(scene, i)[k]) == Path(scene, i)[..k + 1]
    decreases i
  {
    var path := Path(scene, i);
    if k == |path| - 1 {
      assert path[..k + 1] == path;
    } else {
      match scene[i].parent
      case None =>
        assert false;
      case Some(j) =>
        assert path[..|path| - 1] == Path(scene, j);
        PathPrefix(scene, j, k);
    }
  }

  /** Moving a part moves everything below it: the model-view of part `i`
      is the model-view of any ancestor on its chain followed by the object
      transforms of the parts between them. */
  lemma {:induction false} AncestorCarriesDescendants(scene: seq<Entity>, eye: Matrix, i: nat, k: nat)
    requires ParentsFirst(scene)
    requires i < |scene|
    requires k < |Path(scene, i)|
    ensures Path(scene, i)[k] < |scene|
    ensures ValidIndices(scene, Path(scene, i)[k + 1..])
    ensures ModelView(scene, eye, i)
         == Mul(ModelView(scene, eye, Path(scene, i)[k]), Compose(scene, Path(scene, i)[k + 1..]))
  {
    var path := Path(scene, i);
    var a := path[k];
    var above, below := path[..k + 1], path[k + 1..];
    assert path == above + below;
    ModelViewComposesPath(scene, eye, i);
    ModelViewComposesPath(scene, eye, a);
    PathPrefix(scene, i, k);
    ComposeAppend(scene, above, below);
    calc {
      ModelView(scene, eye, i);
      Mul(Inv(eye), Compose(scene, path));
      Mul(Inv(eye), Mul(Compose(scene, above), Compose(scene, below)));
      { MulAssociative(Inv(eye), Compose(scene, above), Compose(scene, below)); }
      Mul(Mul(Inv(eye), Compose(scene, above)), Compose(scene, below));
      Mul(ModelView(scene, eye, a), Compose(scene, below));
    }
  }

  /** Parts created later never change the model-view of an earlier part:
      drawing each part as soon as it is created is the same as drawing the
      finished hierarchy. */
  lemma {:induction false} AppendKeepsModelViews(scene: seq<Entity>, e: Entity, eye: Matrix, i: nat)
    requires ParentsFirst(scene + [e])
    requires i < |scene|
    ensures ParentsFirst(scene)
    ensures ModelView(scene + [e], eye, i) == ModelView(scene, eye, i)
    decreases i
  {
    assert forall k :: 0 <= k < |scene| ==> (scene + [e])[k] == scene[k];
    match scene[i].parent
    case None =>
    case Some(j) =>
      AppendKeepsModelViews(scene, e, eye, j);
  }

  /** The drawing pass of the display routine: parts are visited in creation
      order and each model-view is computed from the already stored
      model-view of its parent. */
  method DrawAll(scene: seq<Entity>, eye: Matrix) returns (modelViews: seq<Matrix>)
    requires ParentsFirst(scene)
    ensures |modelViews| == |scene|
    ensures forall i :: 0 <= i < |scene| ==>
              ValidIndices(scene, Path(scene, i))
              && modelViews[i] == Mul(Inv(eye), Compose(scene, Path(scene, i)))
  {
    modelViews := [];
    var i := 0;
    while i < |scene|
      invariant 0 <= i <= |scene|
      invariant |modelViews| == i
      invariant forall k :: 0 <= k < i ==> modelViews[k] == ModelView(scene, eye, k)
    {
      var entity := scene[i];
      var modelView;
      match entity.parent {
        case None =>
          modelView := Mul(Inv(eye), entity.objectMatrix);
        case Some(j) =>
          modelView := Mul(modelViews[j], entity.objectMatrix);
      }
      modelViews := modelViews + [modelView];
      i := i + 1;
    }
    forall k | 0 <= k < |scene|
      ensures ValidIndices(scene, Path(scene, k))
      ensures modelViews[k] == Mul(Inv(eye), Compose(scene, Path(scene, k)))
    {
      ModelViewComposesPath(scene, eye, k);
    }
  }
}
