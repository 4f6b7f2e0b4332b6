/**
 * Locale documents and dot-path lookup (getNestedTranslation in script.js).
 *
 * A locale document is a tree: string leaves under nested objects. A key such as
 * "hero.title" is split on '.' and the segments are followed one object at a time.
 */
module Translation {
  import opened Wrappers

  /** A parsed locale file: a string leaf or an object of named children. */
  datatype Json = Str(text: string) | Obj(fields: map<string, Json>)

  /** What a key resolves to, classified as updatePageContent uses it. */
  datatype Resolution =
    | Missing              // undefined: some segment was not there
    | Found(text: string)  // a string leaf
    | Subtree              // an object: truthy, but has no `includes`

  /** Segments glued back together with '.' between them. */
  function Join(segs: seq<string>): string
  {
    if segs == [] then ""
    else if |segs| == 1 then segs[0]
    else segs[0] + "." + Join(segs[1..])
  }

  /** No segment holds a '.'. */
  predicate DotFree(segs: seq<string>)
  {
    forall i :: 0 <= i < |segs| ==> '.' !in segs[i]
  }

  /** Gluing a longer first segment: Join([[c] + s] + t) == [c] + Join([s] + t). */
  lemma {:induction false} JoinConsChar(c: char, s: string, t: seq<string>)
    ensures Join([[c] + s] + t) == [c] + Join([s] + t)
  {
    var l := [[c] + s] + t;
    var r := [s] + t;
    assert l[1..] == t && r[1..] == t;
    if t == [] {
      assert l == [[c] + s] && r == [s];
    } else {
      assert Join(l) == ([c] + s) + "." + Join(t);
      assert Join(r) == s + "." + Join(t);
      assert ([c] + s) + "." + Join(t) == [c] + (s + "." + Join(t));
    }
  }

  /** key.split('.'): as many segments as there are dots plus one; "" gives [""]. */
  function Split(key: string): (segs: seq<string>)
    ensures |segs| > 0
    ensures DotFree(segs)
    ensures Join(segs) == key
    decreases |key|
  {
    if key == [] then [""]
    else
      var rest := Split(key[1..]);
      if key[0] == '.' then
        assert Join([""] + rest) == "" + "." + Join(rest) by {
          assert ([""] + rest)[1..] == rest;
        }
        assert key == [key[0]] + key[1..];
        [""] + rest
      else
        JoinConsChar(key[0], rest[0], rest[1..]);
        assert [rest[0]] + rest[1..] == rest;
        assert key == [key[0]] + key[1..];
        [[key[0]] + rest[0]] + rest[1..]
  }

  /** A dot-free segment followed by a '.': splitting peels off exactly that segment. */
  lemma {:induction false} SplitSegment(s: string, tail: string)
    requires '.' !in s
    ensures Split(s + "." + tail) == [s] + Split(tail)
    ensures Split(s) == [s]
    decreases |s|
  {
    if s == [] {
      assert s + "." + tail == ['.'] + tail;
      assert (s + "." + tail)[1..] == tail;
    } else {
      var k := s + "." + tail;
      assert k[0] == s[0] && k[1..] == s[1..] + "." + tail;
      SplitSegment(s[1..], tail);
      assert [s[0]] + s[1..] == s;
    }
  }

  /** Round trip: splitting a joined dot-free path gives the path back. */
  lemma {:induction false} SplitJoin(segs: seq<string>)
    requires |segs| > 0 && DotFree(segs)
    ensures Split(Join(segs)) == segs
  {
    if |segs| == 1 {
      SplitSegment(segs[0], "");
    } else {
      assert DotFree(segs[1..]) by {
        forall i | 0 <= i < |segs[1..]| ensures '.' !in segs[1..][i] {
          assert segs[1..][i] == segs[i + 1];
        }
      }
      SplitJoin(segs[1..]);
      SplitSegment(segs[0], Join(segs[1..]));
      assert [segs[0]] + segs[1..] == segs;
    }
  }

  /** Split is the only dot-free segmentation that joins back to the key. */
  lemma SplitUnique(key: string, segs: seq<string>)
    requires |segs| > 0 && DotFree(segs) && Join(segs) == key
    ensures segs == Split(key)
  {
    SplitJoin(segs);
  }

  /**
   * One `reduce` step per segment: `(o || {})[k]`. An object yields its child or
   * nothing; once nothing, always nothing; a string leaf with segments remaining
   * yields nothing.
   */
  function Walk(doc: Json, path: seq<string>): Option<Json>
    decreases |path|
  {
    if path == [] then Some(doc)
    else match doc
      case Str(_) => None
      case Obj(fields) =>
        if path[0] in fields then Walk(fields[path[0]], path[1..]) else None
  }

  /** Walk composes: following p then q is following p + q; a miss on p stays a miss. */
  lemma {:induction false} WalkAppend(doc: Json, p: seq<string>, q: seq<string>)
    ensures Walk(doc, p + q) == match Walk(doc, p)
      case None => None
      case Some(d) => Walk(d, q)
    decreases |p|
  {
    if p == [] {
      assert p + q == q;
    } else {
      assert (p + q)[0] == p[0] && (p + q)[1..] == p[1..] + q;
      match doc
      case Str(_) =>
      case Obj(fields) =>
        if p[0] in fields {
          WalkAppend(fields[p[0]], p[1..], q);
        }
    }
  }

  /** After object `m` is reached by p, a segment absent from `m` cuts off every longer path. */
  lemma MissingSegment(doc: Json, p: seq<string>, m: map<string, Json>, k: string, rest: seq<string>)
    requires Walk(doc, p) == Some(Obj(m)) && k !in m
    ensures Walk(doc, p + [k] + rest) == None
  {
    WalkAppend(doc, p, [k] + rest);
    assert p + [k] + rest == p + ([k] + rest);
  }

  /** getNestedTranslation(obj, key), classified. */
  function Resolve(doc: Json, key: string): Resolution
  {
    match Walk(doc, Split(key))
    case None => Missing
    case Some(Str(s)) => Found(s)
    case Some(Obj(_)) => Subtree
  }

  /** The document with `leaf` placed at `path`, creating objects where needed. */
  function Put(doc: Json, path: seq<string>, leaf: Json): Json
    decreases |path|
  {
    if path == [] then leaf
    else
      var m := if doc.Obj? then doc.fields else map[];
      var child := if path[0] in m then m[path[0]] else Obj(map[]);
      Obj(m[path[0] := Put(child, path[1..], leaf)])
  }

  /** Lookup hit: a value stored at a dot-free path is found again by walking that path. */
  lemma {:induction false} WalkPut(doc: Json, path: seq<string>, leaf: Json)
    ensures Walk(Put(doc, path, leaf), path) == Some(leaf)
    decreases |path|
  {
    if path != [] {
      var m := if doc.Obj? then doc.fields else map[];
      var child := if path[0] in m then m[path[0]] else Obj(map[]);
      WalkPut(child, path[1..], leaf);
    }
  }

  /** Lookup hit via a key: the string at the nested position named by the key is returned. */
  lemma ResolvePut(doc: Json, segs: seq<string>, text: string)
    requires |segs| > 0 && DotFree(segs)
    ensures Resolve(Put(doc, segs, Str(text)), Join(segs)) == Found(text)
  {
    SplitJoin(segs);
    WalkPut(doc, segs, Str(text));
  }

  /** Placing a value where the document already holds it changes nothing. */
  lemma {:induction false} PutExisting(doc: Json, path: seq<string>, t: Json)
    requires Walk(doc, path) == Some(t)
    ensures Put(doc, path, t) == doc
    decreases |path|
  {
    if path != [] {
      PutExisting(doc.fields[path[0]], path[1..], t);
    }
  }

  /** Lookup hit in any document: a key whose every segment exists resolves to the string there. */
  lemma ResolveExisting(doc: Json, segs: seq<string>, text: string)
    requires |segs| > 0 && DotFree(segs)
    requires Walk(doc, segs) == Some(Str(text))
    ensures Resolve(doc, Join(segs)) == Found(text)
  {
    PutExisting(doc, segs, Str(text));
    ResolvePut(doc, segs, text);
  }

  /** Lookup miss: once a prefix of the key's segments is absent, the key is Missing. */
  lemma ResolveMissingPrefix(doc: Json, key: string, n: nat)
    requires n <= |Split(key)| && Walk(doc, Split(key)[..n]) == None
    ensures Resolve(doc, key) == Missing
  {
    var segs := Split(key);
    WalkAppend(doc, segs[..n], segs[n..]);
    assert segs[..n] + segs[n..] == segs;
  }

  /** Example: "a.b.c" on {a:{b:{c:"hi"}}} is "hi"; on {a:{}} it is Missing. */
  lemma Examples()
    ensures Resolve(Obj(map["a" := Obj(map["b" := Obj(map["c" := Str("hi")])])]), "a.b.c") == Found("hi")
    ensures Resolve(Obj(map["a" := Obj(map[])]), "a.b.c") == Missing
  {
    var segs := ["a", "b", "c"];
    assert DotFree(segs);
    assert Join(segs) == "a.b.c" by {
      assert Join(segs[1..]) == "b.c" by { assert segs[1..][1..] == ["c"]; }
    }
    SplitJoin(segs);
    assert Split("a.b.c") == segs;
    assert segs[1..] == ["b", "c"] && segs[1..][1..] == ["c"];
  }
}
