/** The objects on one canvas, in stacking order (first is drawn first). The library
    compares objects by reference; the model gives every object an identifier and
    compares identifiers instead. */
module Objects {
  import opened Wrappers
  import opened Geometry

  type ObjId = nat

  /** A CSS colour string as produced by the colour picker, e.g. `"#112233"`. */
  type Color = string

  datatype Shape =
    | Rect(left: real, top: real, width: real, height: real)
    | Line(x1: real, y1: real, x2: real, y2: real)
    | Image(naturalWidth: real, naturalHeight: real, place: Placement)

  /** `fill == None` stands for the library's default fill, never set by the page. */
  datatype CanvasObject = CanvasObject(
    id: ObjId,
    shape: Shape,
    selectable: bool,
    fill: Option<Color>,
    visible: bool)

  predicate UniqueIds(objs: seq<CanvasObject>) {
    forall i, j | 0 <= i < j < |objs| :: objs[i].id != objs[j].id
  }

  /** Every identifier is below `bound`: `bound` has not been handed out yet. */
  predicate IdsBelow(objs: seq<CanvasObject>, bound: nat) {
    forall i | 0 <= i < |objs| :: objs[i].id < bound
  }

  /** `a` and `b` hold the same objects (by identity) in the same stacking order. */
  predicate SameIds(a: seq<CanvasObject>, b: seq<CanvasObject>) {
    |a| == |b| && forall i | 0 <= i < |a| :: a[i].id == b[i].id
  }

  /** Position of the first object with identifier `id`. */
  function IndexOf(objs: seq<CanvasObject>, id: ObjId): (r: Option<nat>)
    ensures r.Some? ==> r.value < |objs| && objs[r.value].id == id
    ensures r.Some? ==> forall j | 0 <= j < r.value :: objs[j].id != id
    ensures r.None? ==> forall j | 0 <= j < |objs| :: objs[j].id != id
  {
    if objs == [] then None
    else if objs[0].id == id then Some(0)
    else match IndexOf(objs[1..], id)
      case None => None
      case Some(j) => Some(j + 1)
  }

  /** The object with identifier `id`, if it is on the canvas. */
  function Find(objs: seq<CanvasObject>, id: ObjId): (r: Option<CanvasObject>)
    ensures r.Some? ==> r.value.id == id
    ensures r.None? ==> forall j | 0 <= j < |objs| :: objs[j].id != id
  {
    match IndexOf(objs, id)
    case None => None
    case Some(i) => Some(objs[i])
  }

  /** Sets the properties of the object identified by `o.id` to those of `o`. */
  function Replace(objs: seq<CanvasObject>, o: CanvasObject): seq<CanvasObject> {
    seq(|objs|, i requires 0 <= i < |objs| => if objs[i].id == o.id then o else objs[i])
  }

  /** `canvas.remove(obj)`: takes the object off the canvas, keeping the others in order. */
  function Remove(objs: seq<CanvasObject>, id: ObjId): (r: seq<CanvasObject>)
    ensures forall i | 0 <= i < |r| :: r[i].id != id
  {
    if objs == [] then []
    else if objs[0].id == id then Remove(objs[1..], id)
    else [objs[0]] + Remove(objs[1..], id)
  }

  /** Lookup depends only on identifiers and their order. */
  lemma IndexOfSameIds(a: seq<CanvasObject>, b: seq<CanvasObject>, x: ObjId)
    requires SameIds(a, b)
    ensures IndexOf(a, x) == IndexOf(b, x)
  {
    var ia, ib := IndexOf(a, x), IndexOf(b, x);
    if ia.Some? {
      assert b[ia.value].id == x;
    }
    if ib.Some? {
      assert a[ib.value].id == x;
    }
  }

  lemma UniqueSameIds(a: seq<CanvasObject>, b: seq<CanvasObject>)
    requires SameIds(a, b) && UniqueIds(a)
    ensures UniqueIds(b)
  {
  }

  /** With unique identifiers, looking up an object's identifier finds that object. */
  lemma FindAt(objs: seq<CanvasObject>, i: nat)
    requires UniqueIds(objs) && i < |objs|
    ensures Find(objs, objs[i].id) == Some(objs[i])
  {
    var j := IndexOf(objs, objs[i].id);
    assert j.Some?;
  }

  /** Replacing an object changes what a lookup of its identifier finds, and nothing else. */
  lemma FindReplace(objs: seq<CanvasObject>, o: CanvasObject, x: ObjId)
    ensures SameIds(objs, Replace(objs, o))
    ensures Find(Replace(objs, o), x)
         == if x == o.id && Find(objs, x).Some? then Some(o) else Find(objs, x)
  {
    IndexOfSameIds(objs, Replace(objs, o), x);
  }

  /** Removing an object leaves every other lookup as it was. */
  lemma {:induction false} FindRemove(objs: seq<CanvasObject>, id: ObjId, x: ObjId)
    ensures Find(Remove(objs, id), x) == if x == id then None else Find(objs, x)
    decreases |objs|
  {
    if objs != [] && objs[0].id != id && objs[0].id != x {
      FindRemove(objs[1..], id, x);
      var r := Remove(objs[1..], id);
      assert ([objs[0]] + r)[1..] == r;
    } else if objs != [] && objs[0].id == id {
      FindRemove(objs[1..], id, x);
    }
  }

  /** The objects left are exactly those of `objs` with another identifier. */
  lemma {:induction false} RemoveMembers(objs: seq<CanvasObject>, id: ObjId)
    ensures forall o :: o in Remove(objs, id) <==> o in objs && o.id != id
    decreases |objs|
  {
    if objs != [] {
      RemoveMembers(objs[1..], id);
      assert objs == [objs[0]] + objs[1..];
    }
  }

  /** With unique identifiers, removing an object cuts exactly its slot out of the stack:
      the objects below and above it keep their order. */
  lemma {:induction false} RemoveAt(objs: seq<CanvasObject>, id: ObjId)
    requires UniqueIds(objs)
    ensures IndexOf(objs, id).None? ==> Remove(objs, id) == objs
    ensures IndexOf(objs, id).Some? ==>
      var j := IndexOf(objs, id).value; Remove(objs, id) == objs[..j] + objs[j + 1..]
    decreases |objs|
  {
    if objs != [] {
      RemoveAt(objs[1..], id);
      if objs[0].id == id {
        assert IndexOf(objs[1..], id).None? by {
          forall k | 0 <= k < |objs[1..]|
            ensures objs[1..][k].id != id
          {
            assert objs[1..][k] == objs[k + 1];
          }
        }
      } else if IndexOf(objs[1..], id).Some? {
        var j := IndexOf(objs[1..], id).value;
        assert objs[..j + 1] == [objs[0]] + objs[1..][..j];
        assert objs[j + 2..] == objs[1..][j + 1..];
      }
    }
  }

  lemma {:induction false} RemoveUnique(objs: seq<CanvasObject>, id: ObjId)
    requires UniqueIds(objs)
    ensures UniqueIds(Remove(objs, id))
    decreases |objs|
  {
    if objs != [] {
      RemoveUnique(objs[1..], id);
      RemoveMembers(objs[1..], id);
      var r := Remove(objs[1..], id);
      if objs[0].id != id {
        forall o | o in r
          ensures o.id != objs[0].id
        {
          var k :| 0 <= k < |objs[1..]| && objs[1..][k] == o;
          assert objs[k + 1] == o;
        }
        var t := [objs[0]] + r;
        forall i, j | 0 <= i < j < |t|
          ensures t[i].id != t[j].id
        {
          if i == 0 {
            assert t[j] in r;
          } else {
            assert t[i] == r[i - 1] && t[j] == r[j - 1];
          }
        }
      }
    }
  }

  /** Adding an object on top keeps earlier lookups and makes the new one findable. */
  lemma FindAppend(objs: seq<CanvasObject>, o: CanvasObject, x: ObjId)
    ensures Find(objs + [o], x)
         == if Find(objs, x).Some? then Find(objs, x)
            else if o.id == x then Some(o) else None
  {
    var t := objs + [o];
    var it := IndexOf(t, x);
    var io := IndexOf(objs, x);
    if io.Some? {
      assert t[io.value].id == x;
      assert it == io;
    } else if o.id == x {
      assert t[|objs|].id == x;
      assert it == Some(|objs|);
    } else {
      assert it.None?;
    }
  }

}
