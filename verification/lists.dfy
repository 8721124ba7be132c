/**
 * `HittableList`, the growable list of objects a scene is built in, with the
 * two loops that answer `hit` and `bounding_box` for it.
 */
module Lists {
  import opened Numbers
  import opened Rays
  import opened Boxes
  import opened Records
  import opened Scene

  class HittableList {
    var objects: seq<Hittable>

    /** `HittableList::new`: an empty list. */
    constructor()
      ensures objects == []
    {
      objects := [];
    }

    /** `add`: push one object at the end. */
    method Add(obj: Hittable)
      modifies this
      ensures objects == old(objects) + [obj]
    {
      objects := objects + [obj];
    }

    /** `_clear`: drop every object. */
    method Clear()
      modifies this
      ensures objects == []
    {
      objects := [];
    }

    /** `ix`: the object at `index`; the source panics past the end. */
    method Ix(index: nat) returns (h: Hittable)
      requires index < |objects|
      ensures h == objects[index]
    {
      h := objects[index];
    }

    /** The list as an object of the scene. */
    function AsObject(): (h: Hittable)
      reads this
      ensures h.ListObj? && h.objects == objects
    {
      ListObj(objects)
    }

    /**
     * `HittableList::hit`: one pass over the objects, each asked for a hit
     * before the closest one found so far.
     */
    method Hit(m: Maths, u: UnitDraw, ray: Ray, tMin: XReal, tMax: XReal) returns (r: Option<HitRecord>)
      ensures r == Sweep(m, u, objects, |objects|, ray, tMin, tMax)
      ensures r == Scene.Hit(m, u, AsObject(), ray, tMin, tMax)
    {
      r := None;
      var closest := tMax;
      for i := 0 to |objects|
        invariant r == Sweep(m, u, objects, i, ray, tMin, tMax)
        invariant closest == if r.Some? then Fin(r.value.t) else tMax
      {
        var temp := Scene.Hit(m, u, objects[i], ray, tMin, closest);
        if temp.Some? {
          closest := Fin(temp.value.t);
          r := temp;
        }
      }
    }

    /**
     * `HittableList::bounding_box`: `None` for an empty list, `None` as soon
     * as an object has no box, otherwise the boxes surrounded one by one.
     */
    method BoundingBox(time0: real, time1: real) returns (r: Option<AABB>)
      ensures r == ListBox(objects, |objects|, time0, time1)
    {
      r := None;
      if |objects| == 0 {
        return;
      }
      for i := 0 to |objects|
        invariant r == ListBox(objects, i, time0, time1)
        invariant i > 0 ==> r.Some?
      {
        var temp := Scene.BoundingBox(objects[i], time0, time1);
        if temp.Some? {
          ListBoxGrows(objects, i, time0, time1, r, temp.value);
          if r.Some? {
            r := Some(SurroundingBox(r.value, temp.value));
          } else {
            r := temp;
          }
        } else {
          ListBoxNoneIff(objects, |objects|, time0, time1);
          return None;
        }
      }
    }
  }
}
