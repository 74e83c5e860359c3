/** Rendering of embedded component specs: `{type: t, config: c}` becomes `{t: c}` anywhere in
    a config value. */
module ComponentRender {
  import opened Json

  /** Exactly the keys type (a non-empty string), and optionally config and label. */
  predicate LooksLikeSpec(m: map<string, Json>) {
    && "type" in m && m["type"].Str? && m["type"].s != ""
    && forall k :: k in m ==> k == "type" || k == "config" || k == "label"
  }

  predicate LooksLikeSpecArray(items: seq<Json>) {
    |items| > 0 && forall i :: 0 <= i < |items| ==> items[i].Obj? && LooksLikeSpec(items[i].fields)
  }

  function Render(v: Json): Json
    decreases v, 1
  {
    match v
    case Arr(items) =>
      if LooksLikeSpecArray(items) then
        Arr(seq(|items|, i requires 0 <= i < |items| => SpecToRpc(items[i])))
      else
        Arr(seq(|items|, i requires 0 <= i < |items| => Render(items[i])))
    case Obj(m) => if LooksLikeSpec(m) then SpecToRpc(v) else Obj(map k | k in m :: Render(m[k]))
    case _ => v
  }

  predicate HasConfig(m: map<string, Json>) { "config" in m && m["config"] != Null }

  /** A missing or null config renders as an empty object; a label is dropped. */
  function SpecToRpc(v: Json): Json
    requires v.Obj? && LooksLikeSpec(v.fields)
    decreases v, 0
  {
    var m := v.fields;
    Obj(map[m["type"].s := if HasConfig(m) then Render(m["config"]) else Obj(map[])])
  }

  /** The special path for arrays of specs does the same as rendering element by element. */
  lemma ArrayPathIsElementwise(items: seq<Json>)
    ensures Render(Arr(items)).Arr? && |Render(Arr(items)).items| == |items|
    ensures forall i :: 0 <= i < |items| ==> Render(Arr(items)).items[i] == Render(items[i])
  {
  }

  /** No node of the value looks like a component spec. */
  predicate NoSpec(v: Json) {
    match v
    case Arr(items) => forall i :: 0 <= i < |items| ==> NoSpec(items[i])
    case Obj(m) => !LooksLikeSpec(m) && forall k :: k in m ==> NoSpec(m[k])
    case _ => true
  }

  predicate NonEmptyString(v: Json) { v.Str? && v.s != "" }

  /** A component named "type" whose config is a non-empty string, at a place rendering visits:
      it renders to something that looks like a spec again. */
  predicate HasTrap(v: Json) {
    match v
    case Arr(items) => exists i :: 0 <= i < |items| && HasTrap(items[i])
    case Obj(m) =>
      if LooksLikeSpec(m) then
        && "config" in m && m["config"] != Null
        && (HasTrap(m["config"]) || (m["type"].s == "type" && NonEmptyString(m["config"])))
      else exists k :: k in m && HasTrap(m[k])
    case _ => false
  }

  lemma SingletonSpec(t: string, r: Json)
    ensures LooksLikeSpec(map[t := r]) <==> t == "type" && NonEmptyString(r)
  {
  }

  lemma RenderedString(v: Json)
    ensures NonEmptyString(Render(v)) <==> NonEmptyString(v)
  {
  }

  lemma RenderedFieldsShape(m: map<string, Json>)
    requires !LooksLikeSpec(m)
    ensures !LooksLikeSpec(Render(Obj(m)).fields)
  {
    var r := Render(Obj(m)).fields;
    if "type" in m {
      RenderedString(m["type"]);
    }
    assert forall k :: k in r <==> k in m;
  }

  /** Rendering leaves no spec behind exactly when the value holds no component named "type"
      with a non-empty string config. */
  lemma {:induction false} NothingLeft(v: Json)
    ensures NoSpec(Render(v)) <==> !HasTrap(v)
    decreases v
  {
    match v {
      case Arr(items) =>
        ArrayPathIsElementwise(items);
        forall i | 0 <= i < |items| ensures NoSpec(Render(items[i])) <==> !HasTrap(items[i]) {
          NothingLeft(items[i]);
        }
      case Obj(m) =>
        if LooksLikeSpec(m) {
          if HasConfig(m) {
            NothingLeft(m["config"]);
            RenderedString(m["config"]);
            SingletonSpec(m["type"].s, Render(m["config"]));
            SpecRendered(m);
          } else {
            SingletonSpec(m["type"].s, Obj(map[]));
          }
        } else {
          RenderedFieldsShape(m);
          forall k | k in m ensures NoSpec(Render(m[k])) <==> !HasTrap(m[k]) {
            NothingLeft(m[k]);
          }
          FieldsRendered(m);
        }
      case _ =>
    }
  }

  lemma SpecRendered(m: map<string, Json>)
    requires LooksLikeSpec(m) && HasConfig(m)
    ensures NoSpec(Render(Obj(m))) <==>
            !LooksLikeSpec(map[m["type"].s := Render(m["config"])]) && NoSpec(Render(m["config"]))
  {
    var t, r := m["type"].s, Render(m["config"]);
    assert Render(Obj(m)) == Obj(map[t := r]);
    assert t in map[t := r] && map[t := r][t] == r;
  }

  lemma FieldsRendered(m: map<string, Json>)
    requires !LooksLikeSpec(m)
    ensures NoSpec(Render(Obj(m))) <==>
            !LooksLikeSpec(Render(Obj(m)).fields) && forall k :: k in m ==> NoSpec(Render(m[k]))
  {
    var r := Render(Obj(m)).fields;
    assert forall k :: k in r <==> k in m;
    assert forall k :: k in m ==> r[k] == Render(m[k]);
  }

  /** Rendering changes a value exactly when a spec is somewhere in it. */
  lemma {:induction false} FixedPoint(v: Json)
    ensures Render(v) == v <==> NoSpec(v)
    decreases v
  {
    match v {
      case Arr(items) =>
        ArrayPathIsElementwise(items);
        forall i | 0 <= i < |items| ensures Render(items[i]) == items[i] <==> NoSpec(items[i]) {
          FixedPoint(items[i]);
        }
        if NoSpec(v) {
          assert Render(v).items == items;
        } else {
          var i :| 0 <= i < |items| && !NoSpec(items[i]);
          assert Render(v).items[i] != items[i];
        }
      case Obj(m) =>
        if LooksLikeSpec(m) {
          SpecChanges(m);
        } else {
          forall k | k in m ensures Render(m[k]) == m[k] <==> NoSpec(m[k]) {
            FixedPoint(m[k]);
          }
          var r := Render(v).fields;
          assert r.Keys == m.Keys;
          assert forall k :: k in m ==> r[k] == Render(m[k]);
          if NoSpec(v) {
            assert r == m;
          }
        }
      case _ =>
    }
  }

  lemma SpecChanges(m: map<string, Json>)
    requires LooksLikeSpec(m)
    ensures Render(Obj(m)) != Obj(m)
  {
    assert SpecToRpc(Obj(m)).fields.Keys == {m["type"].s};
  }

  /** Rendering a second time changes nothing, exactly when the first left no spec behind. */
  lemma RenderTwice(v: Json)
    ensures Render(Render(v)) == Render(v) <==> !HasTrap(v)
  {
    NothingLeft(v);
    FixedPoint(Render(v));
  }

  // ---------- nothing is lost

  datatype Step = Field(key: string) | Item(index: nat)

  /** A scalar, or an empty array or object. */
  predicate IsLeaf(v: Json) { !(v.Arr? && v.items != []) && !(v.Obj? && v.fields != map[]) }

  /** Following `path` from `v` leads to the leaf `x`. */
  predicate LeafAt(v: Json, path: seq<Step>, x: Json)
    decreases |path|
  {
    if path == [] then IsLeaf(v) && v == x
    else match path[0]
      case Field(k) => v.Obj? && k in v.fields && LeafAt(v.fields[k], path[1..], x)
      case Item(i) => v.Arr? && i < |v.items| && LeafAt(v.items[i], path[1..], x)
  }

  /** The leaves determine a value. */
  lemma {:induction false} LeavesDetermine(v: Json, w: Json)
    requires forall path, x :: LeafAt(v, path, x) <==> LeafAt(w, path, x)
    ensures v == w
    decreases v
  {
    if IsLeaf(v) {
      assert LeafAt(v, [], v);
    } else {
      SameShape(v, w);
      if v.Obj? {
        forall k | k in v.fields ensures v.fields[k] == w.fields[k] {
          forall path, x ensures LeafAt(v.fields[k], path, x) <==> LeafAt(w.fields[k], path, x) {
            Under(v, Field(k), path, x);
            Under(w, Field(k), path, x);
          }
          LeavesDetermine(v.fields[k], w.fields[k]);
        }
        assert v.fields == w.fields;
      } else {
        forall i | 0 <= i < |v.items| ensures v.items[i] == w.items[i] {
          forall path, x ensures LeafAt(v.items[i], path, x) <==> LeafAt(w.items[i], path, x) {
            Under(v, Item(i), path, x);
            Under(w, Item(i), path, x);
          }
          LeavesDetermine(v.items[i], w.items[i]);
        }
      }
    }
  }

  lemma Under(v: Json, s: Step, path: seq<Step>, x: Json)
    ensures s.Field? ==> (LeafAt(v, [s] + path, x) <==> v.Obj? && s.key in v.fields && LeafAt(v.fields[s.key], path, x))
    ensures s.Item? ==> (LeafAt(v, [s] + path, x) <==>
            v.Arr? && s.index < |v.items| && LeafAt(v.items[s.index], path, x))
  {
    assert ([s] + path)[1..] == path;
  }

  lemma {:induction false} SomeLeaf(v: Json) returns (path: seq<Step>, x: Json)
    ensures LeafAt(v, path, x)
    decreases v
  {
    if IsLeaf(v) {
      path, x := [], v;
    } else if v.Obj? {
      var k :| k in v.fields;
      path, x := SomeLeaf(v.fields[k]);
      Under(v, Field(k), path, x);
      path := [Field(k)] + path;
    } else {
      path, x := SomeLeaf(v.items[0]);
      Under(v, Item(0), path, x);
      path := [Item(0)] + path;
    }
  }

  lemma SameShape(v: Json, w: Json)
    requires (forall path, x :: LeafAt(v, path, x) <==> LeafAt(w, path, x)) && !IsLeaf(v)
    ensures v.Obj? ==> w.Obj? && v.fields.Keys == w.fields.Keys
    ensures v.Arr? ==> w.Arr? && |v.items| == |w.items|
  {
    if IsLeaf(w) {
      assert LeafAt(w, [], w);
    }
    if v.Obj? {
      HasChildren(v, w);
      HasChildren(w, v);
    } else {
      HasItems(v, w);
      HasItems(w, v);
    }
  }

  lemma HasChildren(v: Json, w: Json)
    requires forall path, x :: LeafAt(v, path, x) ==> LeafAt(w, path, x)
    ensures v.Obj? ==> forall k :: k in v.fields ==> w.Obj? && k in w.fields
  {
    if v.Obj? {
      forall k | k in v.fields ensures w.Obj? && k in w.fields {
        var path, x := SomeLeaf(v.fields[k]);
        Under(v, Field(k), path, x);
        Under(w, Field(k), path, x);
      }
    }
  }

  lemma HasItems(v: Json, w: Json)
    requires forall path, x :: LeafAt(v, path, x) ==> LeafAt(w, path, x)
    ensures v.Arr? && v.items != [] ==> w.Arr? && |v.items| <= |w.items|
  {
    if v.Arr? && v.items != [] {
      var i := |v.items| - 1;
      var path, x := SomeLeaf(v.items[i]);
      Under(v, Item(i), path, x);
      Under(w, Item(i), path, x);
    }
  }

  /** A component spec, by its keys: a non-empty type, perhaps a config and a label, and nothing else. */
  predicate SpecShaped(m: map<string, Json>) {
    m.Keys <= {"type", "config", "label"} && "type" in m && m["type"].Str? && |m["type"].s| > 0
  }

  /** The leaves of the input that must survive, and where: those of a spec's config move under its type,
      a spec without a config leaves an empty object there, and everything else stays in place. */
  predicate Survives(v: Json, path: seq<Step>, x: Json)
    decreases |path|
  {
    if v.Obj? && SpecShaped(v.fields) then
      && path != [] && path[0] == Field(v.fields["type"].s)
      && if "config" in v.fields && v.fields["config"] != Null then Survives(v.fields["config"], path[1..], x)
         else path[1..] == [] && x == Obj(map[])
    else if path == [] then IsLeaf(v) && v == x
    else match path[0]
      case Field(k) => v.Obj? && k in v.fields && Survives(v.fields[k], path[1..], x)
      case Item(i) => v.Arr? && i < |v.items| && Survives(v.items[i], path[1..], x)
  }

  /** Rendering loses nothing and adds nothing: the leaves of the rendered value are exactly those of
      the input that must survive, at their new paths. */
  lemma {:induction false} RenderKeepsLeaves(v: Json, path: seq<Step>, x: Json)
    ensures LeafAt(Render(v), path, x) <==> Survives(v, path, x)
    decreases |path|, 1
  {
    match v {
      case Arr(items) =>
        ArrayPathIsElementwise(items);
        if path != [] && path[0].Item? && path[0].index < |items| {
          RenderKeepsLeaves(items[path[0].index], path[1..], x);
        }
      case Obj(m) =>
        assert LooksLikeSpec(m) <==> SpecShaped(m);
        if LooksLikeSpec(m) {
          SpecLeaves(m, path, x);
        } else {
          var r := Render(v).fields;
          assert forall k :: k in r <==> k in m;
          assert m != map[] ==> r != map[] by {
            if m != map[] { var k :| k in m; assert k in r; }
          }
          if path != [] && path[0].Field? && path[0].key in m {
            RenderKeepsLeaves(m[path[0].key], path[1..], x);
          }
        }
      case _ =>
    }
  }

  lemma SpecLeaves(m: map<string, Json>, path: seq<Step>, x: Json)
    requires LooksLikeSpec(m) && SpecShaped(m)
    ensures LeafAt(Render(Obj(m)), path, x) <==> Survives(Obj(m), path, x)
    decreases |path|, 0
  {
    var t := m["type"].s;
    var inner := if HasConfig(m) then Render(m["config"]) else Obj(map[]);
    assert Render(Obj(m)) == Obj(map[t := inner]) && t in map[t := inner];
    if path != [] && HasConfig(m) {
      RenderKeepsLeaves(m["config"], path[1..], x);
    }
  }

  /** The trap is real: a component named "type" with config "kafka" renders to a spec of kafka. */
  lemma TrapExample()
    ensures
      var v := Obj(map["type" := Str("type"), "config" := Str("kafka")]);
      Render(v) == Obj(map["type" := Str("kafka")]) && Render(Render(v)) == Obj(map["kafka" := Obj(map[])])
  {
    var m := map["type" := Str("type"), "config" := Str("kafka")];
    assert "type" != "config";
    assert LooksLikeSpec(m) && HasConfig(m);
    assert Render(Obj(m)) == Obj(map["type" := Str("kafka")]);
    var n := map["type" := Str("kafka")];
    assert LooksLikeSpec(n) && !HasConfig(n);
  }
}
