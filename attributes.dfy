/** The attribute classifier of index.js: `CodeBuilder.parseAttr`, which
    splits the attribute object of an element into the `style` and `class`
    values, the inline event handlers and the plain attributes. */
module Attributes {

  datatype Option<T> = None | Some(value: T)

  /** A JavaScript object from names to string values. The order of the
      sequence is the order in which `for...in` visits the keys. */
  type Attrs = seq<(string, string)>

  /** The keys of an object are distinct. */
  predicate DistinctKeys(m: Attrs) {
    forall i, j :: 0 <= i < j < |m| ==> m[i].0 != m[j].0
  }

  /** `m[k]`, with `None` for `undefined`. */
  function Lookup(m: Attrs, k: string): Option<string> {
    if m == [] then None
    else if m[0].0 == k then Some(m[0].1)
    else Lookup(m[1..], k)
  }

  /** `m[k] = v`: an existing key keeps its place and gets the new value, a
      new key goes last. */
  function Put(m: Attrs, k: string, v: string): (r: Attrs)
    ensures Lookup(r, k) == Some(v)
    ensures forall k' :: k' != k ==> Lookup(r, k') == Lookup(m, k')
    ensures DistinctKeys(m) ==> DistinctKeys(r)
    ensures forall p :: p in r ==> p.0 == k || p in m
  {
    if m == [] then [(k, v)]
    else if m[0].0 == k then [(k, v)] + m[1..]
    else
      var t := Put(m[1..], k, v);
      assert forall i :: 1 <= i < |m| ==> m[i] == m[1..][i - 1];
      [m[0]] + t
  }

  /** `delete m[k]`: the entries of `m` without key `k`, in order. */
  function Delete(m: Attrs, k: string): (r: Attrs)
    ensures forall i :: 0 <= i < |r| ==> r[i].0 != k
  {
    if m == [] then []
    else if m[0].0 == k then Delete(m[1..], k)
    else [m[0]] + Delete(m[1..], k)
  }

  /** `name.substr(0, 2).toLowerCase() === 'on'` (index.js:58). Only `O` and
      `o` lower-case to `o`, and only `N` and `n` to `n`. */
  predicate IsHandlerName(name: string) {
    |name| >= 2 && (name[0] == 'o' || name[0] == 'O') && (name[1] == 'n' || name[1] == 'N')
  }

  /** The result object of `parseAttr`. */
  datatype Buckets = Buckets(style: Option<string>, klass: Option<string>, attr: Attrs, on: Attrs)

  /** The attribute object after `delete attr.style; delete attr['class']`. */
  function Remaining(attrs: Attrs): Attrs {
    Delete(Delete(attrs, "style"), "class")
  }

  /** The plain attributes collected from `m`, in visiting order. */
  function PlainPart(m: Attrs): Attrs {
    if m == [] then []
    else
      var acc := PlainPart(m[..|m| - 1]);
      var (name, value) := m[|m| - 1];
      if IsHandlerName(name) then acc else Put(acc, name, value)
  }

  /** The handlers collected from `m`, keyed by the name after its first two
      characters. */
  function HandlerPart(m: Attrs): Attrs {
    if m == [] then []
    else
      var acc := HandlerPart(m[..|m| - 1]);
      var (name, value) := m[|m| - 1];
      if IsHandlerName(name) then Put(acc, name[2..], value) else acc
  }

  /** What `parseAttr(attrs)` returns. */
  function Classify(attrs: Attrs): Buckets {
    var rest := Remaining(attrs);
    Buckets(Lookup(attrs, "style"), Lookup(attrs, "class"), PlainPart(rest), HandlerPart(rest))
  }

  /** `parseAttr(attr)` (index.js:48-65). The source deletes `style` and
      `class` from its argument; `rest` is the argument after the deletions. */
  method ParseAttr(attr: Attrs) returns (result: Buckets, rest: Attrs)
    ensures rest == Remaining(attr)
    ensures result == Classify(attr)
  {
    result := Buckets(Lookup(attr, "style"), Lookup(attr, "class"), [], []);
    rest := Delete(attr, "style");
    rest := Delete(rest, "class");
    var i := 0;
    while i < |rest|
      invariant 0 <= i <= |rest|
      invariant result == Buckets(Lookup(attr, "style"), Lookup(attr, "class"), PlainPart(rest[..i]), HandlerPart(rest[..i]))
    {
      var (name, value) := rest[i];
      assert PlainPart(rest[..i + 1]) == (if IsHandlerName(name) then PlainPart(rest[..i]) else Put(PlainPart(rest[..i]), name, value))
        && HandlerPart(rest[..i + 1]) == (if IsHandlerName(name) then Put(HandlerPart(rest[..i]), name[2..], value) else HandlerPart(rest[..i]))
      by {
        assert rest[..i + 1][..i] == rest[..i];
      }
      if IsHandlerName(name) {
        result := result.(on := Put(result.on, name[2..], value));
      } else {
        result := result.(attr := Put(result.attr, name, value));
      }
      i := i + 1;
    }
    assert rest[..i] == rest;
  }

  lemma {:induction false} LookupDelete(m: Attrs, k: string, k': string)
    ensures Lookup(Delete(m, k), k') == if k' == k then None else Lookup(m, k')
  {
    if m != [] {
      LookupDelete(m[1..], k, k');
    }
  }

  lemma {:induction false} DeleteDistinct(m: Attrs, k: string)
    requires DistinctKeys(m)
    ensures DistinctKeys(Delete(m, k))
    ensures forall i :: 0 <= i < |Delete(m, k)| ==> exists j :: 0 <= j < |m| && m[j] == Delete(m, k)[i]
  {
    if m != [] {
      DeleteDistinct(m[1..], k);
      var t := Delete(m[1..], k);
      assert forall i :: 0 <= i < |t| ==> exists j :: 0 <= j < |m| && m[j] == t[i] by {
        forall i | 0 <= i < |t|
          ensures exists j :: 0 <= j < |m| && m[j] == t[i]
        {
          var j :| 0 <= j < |m[1..]| && m[1..][j] == t[i];
          assert m[j + 1] == t[i];
        }
      }
      if m[0].0 != k {
        var r := [m[0]] + t;
        forall i, j | 0 <= i < j < |r|
          ensures r[i].0 != r[j].0
        {
          if i == 0 {
            var j' :| 0 <= j' < |m[1..]| && m[1..][j'] == r[j];
            assert m[j' + 1] == r[j];
          }
        }
      }
    }
  }

  /** The deletions remove exactly `style` and `class`: every other key keeps
      its value, and the keys stay distinct. */
  lemma {:induction false} RemainingLookup(attrs: Attrs)
    requires DistinctKeys(attrs)
    ensures DistinctKeys(Remaining(attrs))
    ensures forall k :: Lookup(Remaining(attrs), k) == if k == "style" || k == "class" then None else Lookup(attrs, k)
  {
    DeleteDistinct(attrs, "style");
    DeleteDistinct(Delete(attrs, "style"), "class");
    forall k
      ensures Lookup(Remaining(attrs), k) == if k == "style" || k == "class" then None else Lookup(attrs, k)
    {
      LookupDelete(attrs, "style", k);
      LookupDelete(Delete(attrs, "style"), "class", k);
    }
  }

  lemma {:induction false} LookupLast(m: Attrs, k: string)
    requires DistinctKeys(m) && m != []
    ensures Lookup(m, k) == if m[|m| - 1].0 == k then Some(m[|m| - 1].1) else Lookup(m[..|m| - 1], k)
  {
    if |m| > 1 {
      assert m[1..][..|m| - 2] == m[..|m| - 1][1..];
      LookupLast(m[1..], k);
    }
  }

  /** The plain attributes of a distinct-keyed object are the entries whose
      name does not start with `on`, with their values unchanged. */
  lemma {:induction false} PlainPartLookup(m: Attrs)
    requires DistinctKeys(m)
    ensures DistinctKeys(PlainPart(m))
    ensures forall k :: Lookup(PlainPart(m), k) == if IsHandlerName(k) then None else Lookup(m, k)
  {
    if m != [] {
      var init := m[..|m| - 1];
      PlainPartLookup(init);
      forall k
        ensures Lookup(PlainPart(m), k) == if IsHandlerName(k) then None else Lookup(m, k)
      {
        LookupLast(m, k);
      }
    }
  }

  /** Entry `p` is a handler attribute for event `e`. */
  predicate HandlerFor(p: (string, string), e: string) {
    IsHandlerName(p.0) && p.0[2..] == e
  }

  /** A handler for `e` appears in `m` after position `i`. */
  predicate LaterHandler(m: Attrs, i: nat, e: string) {
    exists j :: i < j < |m| && HandlerFor(m[j], e)
  }

  /** The handler stored for event `e` is the value of the last attribute
      that names `e`; there is none exactly when no attribute names `e`.
      Keys that collide after the prefix is cut off overwrite earlier ones. */
  lemma {:induction false} HandlerPartLookup(m: Attrs, e: string)
    ensures DistinctKeys(HandlerPart(m))
    ensures Lookup(HandlerPart(m), e) == None <==> forall i :: 0 <= i < |m| ==> !HandlerFor(m[i], e)
    ensures forall i :: 0 <= i < |m| && HandlerFor(m[i], e) && !LaterHandler(m, i, e) ==> Lookup(HandlerPart(m), e) == Some(m[i].1)
  {
    HandlerPartDistinct(m);
    HandlerPartNone(m, e);
    HandlerPartLast(m, e);
  }

  /** Handler keys are distinct: a later handler for the same event
      replaces the earlier one. */
  lemma {:induction false} HandlerPartDistinct(m: Attrs)
    ensures DistinctKeys(HandlerPart(m))
  {
    if m != [] {
      HandlerPartDistinct(m[..|m| - 1]);
    }
  }

  /** How the last entry changes the handler stored for `e`. */
  lemma {:induction false} HandlerPartSnoc(m: Attrs, e: string)
    requires m != []
    ensures Lookup(HandlerPart(m), e) ==
      if HandlerFor(m[|m| - 1], e) then Some(m[|m| - 1].1) else Lookup(HandlerPart(m[..|m| - 1]), e)
  {
    var last := m[|m| - 1];
    var acc := HandlerPart(m[..|m| - 1]);
    assert HandlerPart(m) == if IsHandlerName(last.0) then Put(acc, last.0[2..], last.1) else acc;
  }

  /** No handler is stored for `e` exactly when no attribute names `e`. */
  lemma {:induction false} HandlerPartNone(m: Attrs, e: string)
    ensures Lookup(HandlerPart(m), e) == None <==> forall i :: 0 <= i < |m| ==> !HandlerFor(m[i], e)
  {
    if m != [] {
      var init := m[..|m| - 1];
      HandlerPartNone(init, e);
      HandlerPartSnoc(m, e);
      assert forall i :: 0 <= i < |init| ==> init[i] == m[i];
    }
  }

  /** The handler stored for `e` is the value of the last attribute naming
      `e`. */
  lemma {:induction false} HandlerPartLast(m: Attrs, e: string)
    ensures forall i :: 0 <= i < |m| && HandlerFor(m[i], e) && !LaterHandler(m, i, e) ==> Lookup(HandlerPart(m), e) == Some(m[i].1)
  {
    if m != [] {
      var init := m[..|m| - 1];
      var last := m[|m| - 1];
      HandlerPartLast(init, e);
      HandlerPartSnoc(m, e);
      if HandlerFor(last, e) {
        forall i | 0 <= i < |m| - 1 && HandlerFor(m[i], e)
          ensures LaterHandler(m, i, e)
        {
          assert HandlerFor(m[|m| - 1], e);
        }
      } else {
        forall i | 0 <= i < |init| && HandlerFor(m[i], e) && !LaterHandler(m, i, e)
          ensures HandlerFor(init[i], e) && !LaterHandler(init, i, e)
        {
          assert init[i] == m[i];
          assert forall j :: i < j < |init| ==> init[j] == m[j];
        }
      }
    }
  }

  /** The plain attributes of `parseAttr` are the entries other than
      `style`, `class` and the handlers, with their values unchanged. */
  lemma {:induction false} ClassifyPlain(attrs: Attrs)
    requires DistinctKeys(attrs)
    ensures DistinctKeys(Classify(attrs).attr)
    ensures forall k ::
      Lookup(Classify(attrs).attr, k) == if k == "style" || k == "class" || IsHandlerName(k) then None else Lookup(attrs, k)
  {
    RemainingLookup(attrs);
    PlainPartLookup(Remaining(attrs));
  }

  /** Deleting a key deletes it from the entries before the last one, and
      from the last one. */
  lemma {:induction false} DeleteSnoc(m: Attrs, k: string)
    requires m != []
    ensures Delete(m, k) == Delete(m[..|m| - 1], k) + (if m[|m| - 1].0 == k then [] else [m[|m| - 1]])
  {
    if |m| > 1 {
      assert m[1..][..|m| - 2] == m[..|m| - 1][1..];
      DeleteSnoc(m[1..], k);
    }
  }

  /** Deleting a key that does not start with `on` leaves the handlers as
      they are. */
  lemma {:induction false} HandlerPartDelete(m: Attrs, k: string)
    requires !IsHandlerName(k)
    ensures HandlerPart(Delete(m, k)) == HandlerPart(m)
  {
    if m != [] {
      var init := m[..|m| - 1];
      var last := m[|m| - 1];
      DeleteSnoc(m, k);
      HandlerPartDelete(init, k);
      if last.0 != k {
        var d := Delete(init, k) + [last];
        assert d[..|d| - 1] == Delete(init, k);
      } else {
        assert Delete(init, k) + [] == Delete(init, k);
      }
    }
  }

  /** The handlers of `parseAttr` are collected from all the attributes:
      deleting `style` and `class` first removes none of them. */
  lemma {:induction false} ClassifyHandlers(attrs: Attrs)
    ensures Classify(attrs).on == HandlerPart(attrs)
  {
    HandlerPartDelete(attrs, "style");
    HandlerPartDelete(Delete(attrs, "style"), "class");
  }
}
