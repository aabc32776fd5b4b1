/** The key under which emitters are shared: it covers the whole configuration and
    does not depend on map iteration order. */
module EmitterKeys {
  import opened Wrappers
  import opened Strings

  const SEPARATOR: char := '\0'
  const DEFAULT_SERVICE_NAME := "consent-access-audit"

  datatype EmitterConfig = EmitterConfig(
    endpoint: string, serviceName: string, timeout: int, headers: map<string, string>)
  {
    function EffectiveService(): string {
      if serviceName == "" then DEFAULT_SERVICE_NAME else serviceName
    }
  }

  // ----------------------------------------------------------- sorted key lists

  /** Byte-wise string order. */
  predicate Less(a: string, b: string) {
    b != "" && (a == "" || a[0] < b[0] || (a[0] == b[0] && Less(a[1..], b[1..])))
  }

  lemma {:induction false} LessTotal(a: string, b: string)
    ensures Less(a, b) || Less(b, a) || a == b
    ensures !(Less(a, b) && Less(b, a))
    ensures !Less(a, a)
  {
    if a != "" && b != "" {
      LessTotal(a[1..], b[1..]);
      LessTotal(a[1..], a[1..]);
      assert a == [a[0]] + a[1..] && b == [b[0]] + b[1..];
    } else if a != "" {
      LessTotal(a[1..], a[1..]);
    }
  }

  lemma {:induction false} LessTransitive(a: string, b: string, c: string)
    requires Less(a, b) && Less(b, c)
    ensures Less(a, c)
  {
    if a != "" && a[0] == b[0] == c[0] {
      LessTransitive(a[1..], b[1..], c[1..]);
    }
  }

  predicate Ascending(s: seq<string>) {
    forall i, j :: 0 <= i < j < |s| ==> Less(s[i], s[j])
  }

  function Elements(s: seq<string>): set<string> {
    set x | x in s
  }

  /** sort.Strings, one insertion. */
  function InsertName(x: string, s: seq<string>): (r: seq<string>)
    requires Ascending(s) && x !in s
    ensures Ascending(r) && Elements(r) == Elements(s) + {x}
  {
    if s == [] then [x]
    else
      LessTotal(x, s[0]);
      if Less(x, s[0]) then
        FrontIsLess(x, s);
        [x] + s
      else
        var tail := InsertName(x, s[1..]);
        assert s == [s[0]] + s[1..];
        InsertedAfter(x, s, tail);
        [s[0]] + tail
  }

  lemma InsertedAfter(x: string, s: seq<string>, tail: seq<string>)
    requires Ascending(s) && s != [] && Less(s[0], x) && Elements(tail) == Elements(s[1..]) + {x}
    ensures forall i :: 0 <= i < |tail| ==> Less(s[0], tail[i])
    ensures Elements([s[0]] + tail) == Elements(s) + {x}
  {
    forall i | 0 <= i < |tail| ensures Less(s[0], tail[i]) {
      assert tail[i] in Elements(tail);
      if tail[i] != x {
        var j :| 0 <= j < |s[1..]| && s[1..][j] == tail[i];
        assert s[j + 1] == tail[i];
      }
    }
    assert s == [s[0]] + s[1..];
    assert Elements([s[0]] + tail) == {s[0]} + Elements(tail);
    assert Elements([s[0]] + s[1..]) == {s[0]} + Elements(s[1..]);
  }

  lemma FrontIsLess(x: string, s: seq<string>)
    requires Ascending(s) && s != [] && Less(x, s[0])
    ensures forall i :: 0 <= i < |s| ==> Less(x, s[i])
  {
    forall i | 0 <= i < |s| ensures Less(x, s[i]) {
      if i > 0 {
        LessTransitive(x, s[0], s[i]);
      }
    }
  }

  /** A set of names has one ascending listing. */
  lemma {:induction false} AscendingUnique(s: seq<string>, t: seq<string>)
    requires Ascending(s) && Ascending(t) && Elements(s) == Elements(t)
    ensures s == t
  {
    assert s != [] ==> s[0] in Elements(s);
    assert t != [] ==> t[0] in Elements(t);
    if s != [] && t != [] {
      LessTotal(s[0], t[0]);
      assert s[0] == t[0];
      TailElements(s);
      TailElements(t);
      AscendingUnique(s[1..], t[1..]);
    }
  }

  lemma TailElements(s: seq<string>)
    requires Ascending(s) && s != []
    ensures Elements(s[1..]) == Elements(s) - {s[0]}
  {
    assert s == [s[0]] + s[1..];
    forall i | 1 <= i < |s| ensures s[i] != s[0] {
      LessTotal(s[0], s[i]);
    }
  }

  /** sortedKeys: whatever order the map is ranged over, the listing is the same. */
  method SortedKeys(m: map<string, string>) returns (keys: seq<string>)
    ensures Ascending(keys) && Elements(keys) == m.Keys
    ensures forall other :: Ascending(other) && Elements(other) == m.Keys ==> other == keys
  {
    keys := [];
    var rest := m.Keys;
    while rest != {}
      invariant rest <= m.Keys
      invariant Ascending(keys) && Elements(keys) == m.Keys - rest
      decreases rest
    {
      var k :| k in rest;
      rest := rest - {k};
      assert k !in Elements(keys);
      keys := InsertName(k, keys);
    }
    forall other | Ascending(other) && Elements(other) == m.Keys ensures other == keys {
      AscendingUnique(other, keys);
    }
  }

  // -------------------------------------------------------------------- the key

  /** The ascending listing of a set of names. */
  ghost function Listing(names: set<string>): (s: seq<string>)
    ensures Ascending(s) && Elements(s) == names
    ensures forall n :: n in s <==> n in names
  {
    if names == {} then []
    else
      var x :| x in names;
      var s := InsertName(x, Listing(names - {x}));
      assert forall n :: n in s <==> n in Elements(s);
      s
  }

  function Flatten(headers: map<string, string>, names: seq<string>): seq<string>
    requires forall n :: n in names ==> n in headers
  {
    if names == [] then [] else [names[0], headers[names[0]]] + Flatten(headers, names[1..])
  }

  /** The parts of the key, in order; `render` is the duration's text. */
  ghost function Parts(render: int -> string, c: EmitterConfig): seq<string> {
    [c.endpoint, c.EffectiveService(), render(c.timeout)] + Flatten(c.headers, Listing(c.headers.Keys))
  }

  ghost function KeyOf(render: int -> string, c: EmitterConfig): string {
    Join(Parts(render, c), SEPARATOR)
  }

  method Key(render: int -> string, c: EmitterConfig) returns (key: string)
    ensures key == KeyOf(render, c)
  {
    var keys := SortedKeys(c.headers);
    assert keys == Listing(c.headers.Keys);
    var front := [c.endpoint, c.EffectiveService(), render(c.timeout)];
    var parts := WithHeaders(front, c.headers, keys);
    key := Join(parts, SEPARATOR);
  }

  /** The loop that appends every header's name and value. */
  method WithHeaders(front: seq<string>, headers: map<string, string>, keys: seq<string>) returns (parts: seq<string>)
    requires forall n :: n in keys ==> n in headers
    ensures parts == front + Flatten(headers, keys)
  {
    parts := front;
    for i := 0 to |keys|
      invariant parts + Flatten(headers, keys[i..]) == front + Flatten(headers, keys)
    {
      var k := keys[i];
      assert keys[i..][1..] == keys[i + 1..];
      ghost var rest := Flatten(headers, keys[i + 1..]);
      assert parts + ([k, headers[k]] + rest) == parts + [k, headers[k]] + rest;
      parts := parts + [k, headers[k]];
    }
    assert keys[|keys|..] == [] && parts + [] == parts;
  }

  /** No part contains the separator. */
  ghost predicate SeparatorFree(render: int -> string, c: EmitterConfig) {
    && SEPARATOR !in c.endpoint && SEPARATOR !in c.serviceName && SEPARATOR !in render(c.timeout)
    && forall n :: n in c.headers ==> SEPARATOR !in n && SEPARATOR !in c.headers[n]
  }

  lemma {:induction false} FlattenDetermines(a: map<string, string>, names: seq<string>, b: map<string, string>,
                                             others: seq<string>)
    requires (forall n :: n in names ==> n in a) && (forall n :: n in others ==> n in b)
    requires Flatten(a, names) == Flatten(b, others)
    ensures names == others && forall n :: n in names ==> a[n] == b[n]
  {
    if names != [] && others != [] {
      var x, y := Flatten(a, names), Flatten(b, others);
      assert x[0] == names[0] && x[1] == a[names[0]] && x[2..] == Flatten(a, names[1..]);
      assert y[0] == others[0] && y[1] == b[others[0]] && y[2..] == Flatten(b, others[1..]);
      FlattenDetermines(a, names[1..], b, others[1..]);
      assert names == [names[0]] + names[1..] && others == [others[0]] + others[1..];
    }
  }

  lemma {:induction false} FlattenSeparatorFree(a: map<string, string>, names: seq<string>)
    requires forall n :: n in names ==> n in a
    requires forall n :: n in a ==> SEPARATOR !in n && SEPARATOR !in a[n]
    ensures forall p :: p in Flatten(a, names) ==> SEPARATOR !in p
  {
    if names != [] {
      FlattenSeparatorFree(a, names[1..]);
    }
  }

  lemma PartsSeparatorFree(render: int -> string, c: EmitterConfig)
    requires SeparatorFree(render, c)
    ensures forall p :: p in Parts(render, c) ==> SEPARATOR !in p
  {
    FlattenSeparatorFree(c.headers, Listing(c.headers.Keys));
    assert SEPARATOR !in DEFAULT_SERVICE_NAME;
    var front := [c.endpoint, c.EffectiveService(), render(c.timeout)];
    assert forall p :: p in front ==> SEPARATOR !in p;
  }

  /** The service an emitter reports as. */
  function Named(serviceName: string): string {
    if serviceName == "" then "consent-access-audit" else serviceName
  }

  /** Two configurations share an emitter exactly when endpoint, effective service
      name, timeout and every header coincide. */
  lemma EmitterKeyIff(render: int -> string, a: EmitterConfig, b: EmitterConfig)
    requires forall x, y :: render(x) == render(y) ==> x == y
    requires SeparatorFree(render, a) && SeparatorFree(render, b)
    ensures KeyOf(render, a) == KeyOf(render, b)
            <==> && a.endpoint == b.endpoint && Named(a.serviceName) == Named(b.serviceName)
                 && a.timeout == b.timeout && a.headers == b.headers
  {
    var xs, ys := Parts(render, a), Parts(render, b);
    PartsSeparatorFree(render, a);
    PartsSeparatorFree(render, b);
    SplitJoin(xs, SEPARATOR);
    SplitJoin(ys, SEPARATOR);
    if xs == ys {
      var namesA, namesB := Listing(a.headers.Keys), Listing(b.headers.Keys);
      assert xs[0] == ys[0] && xs[1] == ys[1] && xs[2] == ys[2] && xs[3..] == ys[3..];
      FlattenDetermines(a.headers, namesA, b.headers, namesB);
      assert a.headers.Keys == b.headers.Keys;
      assert forall n :: n in a.headers ==> n in namesA;
      assert a.headers == b.headers;
    }
  }
}
