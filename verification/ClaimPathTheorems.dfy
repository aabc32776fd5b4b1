/** Round trips of the claim-path language, and exactly when projecting the token
    claims in the request phase is invisible to the response phase. */
module ClaimPathTheorems {
  import opened Wrappers
  import opened Strings
  import opened ClaimPath

  // ---------------------------------------------------------------- round trip

  function PrintIndices(indices: seq<nat>): string {
    if indices == [] then "" else "[" + Itoa(indices[0]) + "]" + PrintIndices(indices[1..])
  }

  function PrintSegment(s: Segment): string {
    s.name + PrintIndices(s.indices)
  }

  predicate Fit(indices: seq<nat>) {
    forall k :: 0 <= k < |indices| ==> indices[k] <= MAX_INT
  }

  lemma ParseOneIndex(n: nat, tail: string)
    requires tail == "" || tail[0] == '['
    ensures ParseIndices(Itoa(n) + [']'] + tail) ==
            if n > MAX_INT then None
            else if tail == "" then Some([n])
            else match ParseIndices(tail[1..]) case None => None case Some(more) => Some([n] + more)
  {
    assert ']' !in Itoa(n);
    CutAtFirst(Itoa(n), ']', tail);
    AtoiItoa(n);
  }

  lemma {:induction false} ParsePrintedIndices(indices: seq<nat>)
    requires indices != []
    ensures ParseIndices(PrintIndices(indices)[1..]) == if Fit(indices) then Some(indices) else None
  {
    var tail := PrintIndices(indices[1..]);
    assert PrintIndices(indices)[1..] == Itoa(indices[0]) + [']'] + tail;
    ParseOneIndex(indices[0], tail);
    assert indices == [indices[0]] + indices[1..];
    FitStep(indices);
    if |indices| == 1 {
      assert tail == "" && indices == [indices[0]];
    } else {
      assert tail[0] == '[';
      ParsePrintedIndices(indices[1..]);
    }
  }

  lemma FitStep(indices: seq<nat>)
    requires indices != []
    ensures Fit(indices) <==> indices[0] <= MAX_INT && Fit(indices[1..])
  {
    assert forall k :: 1 <= k < |indices| ==> indices[k] == indices[1..][k - 1];
  }

  /** Printing a segment and parsing it gives the segment back exactly when its
      name has no "[" and every index fits the platform's int. */
  lemma SegmentRoundTripIff(s: Segment)
    ensures ParseSegment(PrintSegment(s)) == Some(s) <==>
            '[' !in s.name && Fit(s.indices)
  {
    var text := PrintSegment(s);
    if '[' in s.name {
      var (before, after) := Cut(s.name, '[').value;
      CutAtFirst(before, '[', after + PrintIndices(s.indices));
      assert text == before + ['['] + (after + PrintIndices(s.indices));
      assert |before| < |s.name|;
    } else if s.indices == [] {
      assert text == s.name;
    } else {
      var printed := PrintIndices(s.indices);
      assert text == s.name + ['['] + printed[1..];
      CutAtFirst(s.name, '[', printed[1..]);
      ParsePrintedIndices(s.indices);
    }
  }

  /** What follows a name: each index text in brackets, and an opening bracket left over
      at the end if `open`. */
  function Suffix(digits: seq<string>, open: bool): string {
    if digits == [] && !open then "" else ['['] + Tail(digits, open)
  }

  /** The same after the first opening bracket. */
  function Tail(digits: seq<string>, open: bool): string {
    if digits == [] then ""
    else if |digits| == 1 && !open then digits[0] + [']'] + ""
    else digits[0] + [']'] + (['['] + Tail(digits[1..], open))
  }

  /** Each text is the decimal form of the index, possibly signed or with zeros. */
  predicate ReadAs(digits: seq<string>, indices: seq<nat>) {
    && |digits| == |indices|
    && forall k :: 0 <= k < |digits| ==> ']' !in digits[k] && Atoi(digits[k]) == Some(indices[k])
  }

  /** The text is a name and its indices; a bracket left over at the end is ignored. */
  predicate WrittenWith(text: string, s: Segment, digits: seq<string>, open: bool) {
    '[' !in s.name && ReadAs(digits, s.indices) && text == s.name + Suffix(digits, open)
  }

  ghost predicate Writes(text: string, s: Segment) {
    exists digits, open :: WrittenWith(text, s, digits, open)
  }

  lemma ReadAsMore(first: string, index: nat, digits: seq<string>, indices: seq<nat>)
    requires ']' !in first && Atoi(first) == Some(index) && ReadAs(digits, indices)
    ensures ReadAs([first] + digits, [index] + indices)
  {
  }

  lemma TailMore(first: string, more: seq<string>, open: bool, remainder: string)
    requires more != [] || open
    requires remainder != "" && remainder[0] == '[' && remainder[1..] == Tail(more, open)
    ensures Tail([first] + more, open) == first + [']'] + remainder
  {
    assert ([first] + more)[1..] == more;
    assert remainder == ['['] + remainder[1..];
  }

  /** The first index text of a list that parses, and what the rest of it gives. */
  lemma FirstIndexText(rest: string) returns (first: string, index: nat, remainder: string)
    requires rest != "" && ParseIndices(rest).Some?
    ensures ']' !in first && Atoi(first) == Some(index) && rest == first + [']'] + remainder
    ensures remainder == "" ==> ParseIndices(rest) == Some([index])
    ensures remainder != "" ==> (remainder[0] == '[' && ParseIndices(remainder[1..]).Some?
                                 && ParseIndices(rest) == Some([index] + ParseIndices(remainder[1..]).value))
  {
    var cut := Cut(rest, ']').value;
    first, remainder := cut.0, cut.1;
    index := Atoi(first).value;
  }

  lemma {:induction false} ParsedIsWritten(rest: string) returns (digits: seq<string>, open: bool)
    requires ParseIndices(rest).Some?
    ensures (digits != [] || open) && ReadAs(digits, ParseIndices(rest).value) && rest == Tail(digits, open)
    decreases |rest|
  {
    if rest == "" {
      digits, open := [], true;
    } else {
      var first, index, remainder := FirstIndexText(rest);
      if remainder == "" {
        digits, open := [first], false;
        ReadAsMore(first, index, [], []);
      } else {
        var more;
        more, open := ParsedIsWritten(remainder[1..]);
        ReadAsMore(first, index, more, ParseIndices(remainder[1..]).value);
        TailMore(first, more, open, remainder);
        digits := [first] + more;
      }
    }
  }

  /** One index text in brackets reads as its index in front of whatever follows. */
  lemma ReadOneIndex(first: string, index: nat, tail: string)
    requires ']' !in first && Atoi(first) == Some(index)
    ensures tail == "" ==> ParseIndices(first + [']'] + tail) == Some([index])
    ensures tail != "" && tail[0] == '[' && ParseIndices(tail[1..]).Some?
        ==> ParseIndices(first + [']'] + tail) == Some([index] + ParseIndices(tail[1..]).value)
  {
    CutAtFirst(first, ']', tail);
  }

  lemma {:induction false} WrittenIsParsed(digits: seq<string>, indices: seq<nat>, open: bool)
    requires ReadAs(digits, indices) && (digits != [] || open)
    ensures ParseIndices(Tail(digits, open)) == Some(indices)
  {
    if digits == [] {
      assert indices == [];
    } else {
      assert indices == [indices[0]] + indices[1..];
      if |digits| == 1 && !open {
        ReadOneIndex(digits[0], indices[0], "");
        assert indices == [indices[0]];
      } else {
        var tail := ['['] + Tail(digits[1..], open);
        WrittenIsParsed(digits[1..], indices[1..], open);
        assert tail[1..] == Tail(digits[1..], open);
        ReadOneIndex(digits[0], indices[0], tail);
      }
    }
  }

  /** A segment parses exactly when it is written so, and every other text is refused. */
  lemma ParsesIffWritten(text: string, s: Segment)
    ensures ParseSegment(text) == Some(s) <==> Writes(text, s)
  {
    if ParseSegment(text) == Some(s) {
      ParsedSegmentIsWritten(text, s);
    }
    if Writes(text, s) {
      var digits, open :| WrittenWith(text, s, digits, open);
      WrittenSegmentIsParsed(text, s, digits, open);
    }
  }

  lemma WrittenSegmentIsParsed(text: string, s: Segment, digits: seq<string>, open: bool)
    requires WrittenWith(text, s, digits, open)
    ensures ParseSegment(text) == Some(s)
  {
    if digits == [] && !open {
      assert s.name + "" == s.name;
    } else {
      WrittenIsParsed(digits, s.indices, open);
      Reassociated(s.name, ['['], Tail(digits, open));
      SplitAtBracket(s.name, Tail(digits, open));
    }
  }

  lemma SplitAtBracket(name: string, rest: string)
    requires '[' !in name && ParseIndices(rest).Some?
    ensures ParseSegment(name + ['['] + rest) == Some(Segment(name, ParseIndices(rest).value))
  {
    CutAtFirst(name, '[', rest);
  }

  lemma Reassociated(a: string, b: string, c: string)
    ensures a + (b + c) == a + b + c
  {
  }

  lemma ParsedSegmentIsWritten(text: string, s: Segment)
    requires ParseSegment(text) == Some(s)
    ensures Writes(text, s)
  {
    if '[' in text {
      var (name, rest) := Cut(text, '[').value;
      var digits, open := ParsedIsWritten(rest);
      BracketIsWritten(text, s, rest, digits, open);
    } else {
      assert WrittenWith(text, s, [], false) by { assert text == text + ""; }
    }
  }

  lemma BracketIsWritten(text: string, s: Segment, rest: string, digits: seq<string>, open: bool)
    requires '[' !in s.name && text == s.name + ['['] + rest
    requires (digits != [] || open) && ReadAs(digits, s.indices) && rest == Tail(digits, open)
    ensures WrittenWith(text, s, digits, open)
  {
    Reassociated(s.name, ['['], rest);
  }

  function PrintedSegments(path: seq<Segment>): (r: seq<string>)
    ensures |r| == |path| && forall i :: 0 <= i < |r| ==> r[i] == PrintSegment(path[i])
  {
    seq(|path|, i requires 0 <= i < |path| => PrintSegment(path[i]))
  }

  lemma {:induction false} NoDotInIndices(indices: seq<nat>)
    ensures '.' !in PrintIndices(indices)
  {
    if indices != [] {
      NoDotInIndices(indices[1..]);
    }
  }

  /** A whole path printed with dots splits and parses back to its segments. */
  lemma PathRoundTrip(path: seq<Segment>)
    requires path != []
    requires forall s :: s in path ==> '[' !in s.name && '.' !in s.name && Fit(s.indices)
    ensures var pieces := Split(Join(PrintedSegments(path), '.'), '.');
            |pieces| == |path| && forall i :: 0 <= i < |path| ==> ParseSegment(pieces[i]) == Some(path[i])
  {
    var printed := PrintedSegments(path);
    forall p | p in printed ensures '.' !in p {
      var i :| 0 <= i < |printed| && printed[i] == p;
      NoDotInIndices(path[i].indices);
    }
    SplitJoin(printed, '.');
    forall i | 0 <= i < |path| ensures ParseSegment(printed[i]) == Some(path[i]) {
      SegmentRoundTripIff(path[i]);
    }
  }

  // -------------------------------------------------------- what a path addresses

  /** A plain step into a JSON value: a field of an object or an item of an array. */
  datatype Hop = Field(name: string) | Item(index: nat)

  /** The value a list of plain steps leads to. */
  function At(node: Json, hops: seq<Hop>): Option<Json>
    decreases |hops|
  {
    if hops == [] then Some(node)
    else match hops[0]
      case Field(name) => if node.Object? && name in node.fields then At(node.fields[name], hops[1..]) else None
      case Item(i) => if node.Array? && i < |node.items| then At(node.items[i], hops[1..]) else None
  }

  function ItemHops(indices: seq<nat>): (hops: seq<Hop>)
    ensures |hops| == |indices|
  {
    if indices == [] then [] else [Item(indices[0])] + ItemHops(indices[1..])
  }

  /** The steps a segment spells out. */
  function Spelled(s: Segment): seq<Hop> {
    (if s.name == "" then [] else [Field(s.name)]) + ItemHops(s.indices)
  }

  /** The steps spell out every segment, with at most one implicit step to the first
      element in front of a segment that names a claim. */
  predicate Elaborates(hops: seq<Hop>, segments: seq<string>)
    decreases |segments|
  {
    if segments == [] then hops == []
    else match ParseSegment(segments[0])
      case None => false
      case Some(s) =>
        var own := Spelled(s);
        || (own <= hops && Elaborates(hops[|own|..], segments[1..]))
        || (s.name != "" && [Item(0)] + own <= hops && Elaborates(hops[|own| + 1..], segments[1..]))
  }

  lemma {:induction false} AtConcat(node: Json, front: seq<Hop>, back: seq<Hop>)
    ensures At(node, front + back) == match At(node, front) case None => None case Some(mid) => At(mid, back)
    decreases |front|
  {
    if front == [] {
      assert front + back == back;
    } else {
      assert (front + back)[0] == front[0] && (front + back)[1..] == front[1..] + back;
      match front[0]
      case Field(name) => if node.Object? && name in node.fields { AtConcat(node.fields[name], front[1..], back); }
      case Item(i) => if node.Array? && i < |node.items| { AtConcat(node.items[i], front[1..], back); }
    }
  }

  lemma {:induction false} SelectIsAt(node: Json, name: string, indices: seq<nat>)
    ensures At(node, ItemHops(indices)) == match Select(node, name, indices) case Err(_) => None case Ok(v) => Some(v)
    decreases |indices|
  {
    if indices != [] && node.Array? && indices[0] < |node.items| {
      assert ItemHops(indices)[1..] == ItemHops(indices[1..]);
      SelectIsAt(node.items[indices[0]], name, indices[1..]);
    }
  }

  /** One segment's step is its spelled-out steps, after the implicit first element
      when the node is an array. */
  lemma StepIsAt(node: Json, text: string, s: Segment, found: Json)
    requires ParseSegment(text) == Some(s)
    ensures Step(node, text) == Ok(found) <==>
            || At(node, Spelled(s)) == Some(found)
            || (s.name != "" && At(node, [Item(0)] + Spelled(s)) == Some(found))
  {
    var own := Spelled(s);
    if s.name == "" {
      assert own == ItemHops(s.indices);
      SelectIsAt(node, s.name, s.indices);
    } else {
      assert own[1..] == ItemHops(s.indices);
      assert ([Item(0)] + own)[1..] == own;
      var fields := DescendIntoObject(node);
      if fields.Some? && s.name in fields.value {
        SelectIsAt(fields.value[s.name], s.name, s.indices);
      }
    }
  }

  lemma {:induction false} FoundIsAddressed(node: Json, segments: seq<string>) returns (hops: seq<Hop>)
    requires Walk(node, segments).Ok?
    ensures Elaborates(hops, segments) && At(node, hops) == Some(Walk(node, segments).value)
    decreases |segments|
  {
    if segments == [] {
      hops := [];
    } else {
      var s := ParseSegment(segments[0]).value;
      var next := Step(node, segments[0]).value;
      var rest := FoundIsAddressed(next, segments[1..]);
      StepIsAt(node, segments[0], s, next);
      var front := if At(node, Spelled(s)) == Some(next) then Spelled(s) else [Item(0)] + Spelled(s);
      hops := front + rest;
      AtConcat(node, front, rest);
      assert hops[|front|..] == rest;
    }
  }

  lemma FirstSpelled(hops: seq<Hop>, segments: seq<string>, s: Segment) returns (front: seq<Hop>, rest: seq<Hop>)
    requires segments != [] && Elaborates(hops, segments) && ParseSegment(segments[0]) == Some(s)
    ensures hops == front + rest && Elaborates(rest, segments[1..])
    ensures front == Spelled(s) || (s.name != "" && front == [Item(0)] + Spelled(s))
  {
    var own := Spelled(s);
    front := if own <= hops && Elaborates(hops[|own|..], segments[1..]) then own else [Item(0)] + own;
    rest := hops[|front|..];
  }

  lemma {:induction false} AddressedIsFound(node: Json, segments: seq<string>, hops: seq<Hop>)
    requires Elaborates(hops, segments) && At(node, hops).Some?
    ensures Walk(node, segments) == Ok(At(node, hops).value)
    decreases |segments|
  {
    if segments != [] {
      var s := ParseSegment(segments[0]).value;
      var front, rest := FirstSpelled(hops, segments, s);
      AtConcat(node, front, rest);
      var next := At(node, front).value;
      StepIsAt(node, segments[0], s, next);
      AddressedIsFound(next, segments[1..], rest);
    }
  }

  /** A path names a consumer exactly when some spelled-out form of it leads to that
      non-empty string: nothing else in the token can be picked up. */
  lemma ConsumerIffAddressed(claims: Claims, path: string, consumer: string)
    requires path != ""
    ensures Consumer(claims, path) == Ok(consumer) <==>
            && consumer != "" && claims != map[]
            && exists hops :: Elaborates(hops, Split(path, '.')) && At(Object(claims), hops) == Some(Text(consumer))
  {
    var segments := Split(path, '.');
    if Consumer(claims, path) == Ok(consumer) {
      var hops := FoundIsAddressed(Object(claims), segments);
    }
    if hops :| Elaborates(hops, segments) && At(Object(claims), hops) == Some(Text(consumer)) {
      AddressedIsFound(Object(claims), segments, hops);
    }
  }

  // ------------------------------------------------------------ how a path fails

  /** The j-th index cannot be taken, and this is the error for it. */
  predicate IndexFails(base: Json, name: string, indices: seq<nat>, j: nat, e: PathError) {
    && j < |indices|
    && match At(base, ItemHops(indices[..j]))
       case None => false
       case Some(mid) =>
         if mid.Array? then indices[j] >= |mid.items| && e == OutOfRange(indices[j]) else e == NotAnArray(name)
  }

  ghost predicate SomeIndexFails(base: Json, name: string, indices: seq<nat>, e: PathError) {
    exists j: nat :: IndexFails(base, name, indices, j, e)
  }

  /** This segment cannot be followed from this node, and this is the error for it. */
  ghost predicate SegmentFails(node: Json, text: string, e: PathError) {
    match ParseSegment(text)
    case None => e == BadSegment(text)
    case Some(Segment(name, indices)) =>
      var inner := if node.Array? && node.items != [] then node.items[0] else node;
      if name == "" then SomeIndexFails(node, name, indices, e)
      else if !inner.Object? then e == NotAnObject(text)
      else if name !in inner.fields then e == NoClaim(name)
      else SomeIndexFails(inner.fields[name], name, indices, e)
  }

  lemma {:induction false} SelectFails(base: Json, name: string, indices: seq<nat>) returns (j: nat)
    requires Select(base, name, indices).Err?
    ensures IndexFails(base, name, indices, j, Select(base, name, indices).error)
    decreases |indices|
  {
    if base.Array? && indices[0] < |base.items| {
      var k := SelectFails(base.items[indices[0]], name, indices[1..]);
      j := k + 1;
      assert indices[..j][1..] == indices[1..][..k];
      assert indices[..j][0] == indices[0];
      assert ItemHops(indices[..j])[1..] == ItemHops(indices[1..][..k]);
    } else {
      j := 0;
    }
  }

  lemma StepFails(node: Json, text: string)
    requires Step(node, text).Err?
    ensures SegmentFails(node, text, Step(node, text).error)
  {
    var parsed := ParseSegment(text);
    if parsed.Some? {
      var s := parsed.value;
      var fields := DescendIntoObject(node);
      if s.name == "" {
        var j := SelectFails(node, s.name, s.indices);
      } else if fields.Some? && s.name in fields.value {
        var j := SelectFails(fields.value[s.name], s.name, s.indices);
      }
    }
  }

  lemma {:induction false} WalkFails(node: Json, segments: seq<string>) returns (k: nat, mid: Json)
    requires Walk(node, segments).Err?
    ensures k < |segments| && Walk(node, segments[..k]) == Ok(mid)
    ensures SegmentFails(mid, segments[k], Walk(node, segments).error)
    decreases |segments|
  {
    var next := Step(node, segments[0]);
    if next.Err? {
      StepFails(node, segments[0]);
      k, mid := 0, node;
    } else {
      k, mid := WalkFails(next.value, segments[1..]);
      k := k + 1;
      assert segments[..k][1..] == segments[1..][..k - 1];
    }
  }

  /** A path that yields no consumer says why: there is no path, there are no claims,
      what it leads to names nobody, or the first segment that cannot be followed
      cannot be followed for that very reason. */
  lemma FailureIsNamed(claims: Claims, path: string) returns (k: nat, mid: Json)
    requires Consumer(claims, path).Err?
    ensures var e, segments := Consumer(claims, path).error, Split(path, '.');
            if path == "" then e == Unset
            else if claims == map[] then e == NoClaims
            else if k < |segments|
              then Walk(Object(claims), segments[..k]) == Ok(mid) && SegmentFails(mid, segments[k], e)
            else Walk(Object(claims), segments) == Ok(mid) && !(mid.Text? && mid.text != "") && e == NotAConsumer
  {
    var segments := Split(path, '.');
    k, mid := |segments|, Null;
    if path != "" && claims != map[] {
      var found := Walk(Object(claims), segments);
      if found.Err? {
        k, mid := WalkFails(Object(claims), segments);
      } else {
        mid := found.value;
      }
    }
  }

  // ----------------------------------------------- the implicit first element

  lemma {:induction false} WalkConcat(node: Json, front: seq<string>, back: seq<string>)
    ensures Walk(node, front + back) ==
            match Walk(node, front) case Err(e) => Err(e) case Ok(mid) => Walk(mid, back)
    decreases |front|
  {
    if front == [] {
      assert front + back == back;
    } else {
      assert (front + back)[0] == front[0] && (front + back)[1..] == front[1..] + back;
      match Step(node, front[0])
      case Err(e) =>
      case Ok(next) => WalkConcat(next, front[1..], back);
    }
  }

  /** When a bare segment lands on an array and the walk still succeeds, naming
      the first element explicitly gives the same value. */
  lemma ExplicitFirstElement(root: Json, front: seq<string>, name: string, next: string, back: seq<string>)
    requires name != "" && '[' !in name
    requires ParseSegment(next).Some? && ParseSegment(next).value.name != ""
    requires var landed := Walk(root, front + [name]); landed.Ok? && landed.value.Array?
    requires Walk(root, front + [name] + [next] + back).Ok?
    ensures Walk(root, front + [name + "[0]"] + [next] + back) == Walk(root, front + [name] + [next] + back)
  {
    var rest := [next] + back;
    var explicit := name + "[0]";
    assert front + [name] + [next] + back == front + ([name] + rest);
    assert front + [explicit] + [next] + back == front + ([explicit] + rest);
    WalkConcat(root, front, [name] + rest);
    WalkConcat(root, front, [explicit] + rest);
    WalkConcat(root, front, [name]);
    var mid := Walk(root, front).value;
    WalkOne(mid, name, []);
    assert [name] + [] == [name];
    ExplicitFirstAt(mid, name, next, back);
  }

  lemma {:induction false} WalkOne(node: Json, segment: string, back: seq<string>)
    ensures Walk(node, [segment] + back) ==
            match Step(node, segment) case Err(e) => Err(e) case Ok(next) => Walk(next, back)
  {
    assert ([segment] + back)[1..] == back;
  }

  lemma ParseExplicitFirst(name: string)
    requires '[' !in name
    ensures ParseSegment(name + "[0]") == Some(Segment(name, [0]))
  {
    assert PrintIndices([0]) == "[0]" by {
      assert Itoa(0) == "0";
      assert PrintIndices([0]) == "[" + "0" + "]" + PrintIndices([]);
    }
    SegmentRoundTripIff(Segment(name, [0]));
  }

  lemma ExplicitFirstAt(mid: Json, name: string, next: string, back: seq<string>)
    requires name != "" && '[' !in name
    requires ParseSegment(next).Some? && ParseSegment(next).value.name != ""
    requires Step(mid, name).Ok? && Step(mid, name).value.Array?
    requires Walk(mid, [name] + ([next] + back)).Ok?
    ensures Walk(mid, [name + "[0]"] + ([next] + back)) == Walk(mid, [name] + ([next] + back))
  {
    var explicit := name + "[0]";
    ParseExplicitFirst(name);
    WalkOne(mid, name, [next] + back);
    WalkOne(mid, explicit, [next] + back);
    var listed := Step(mid, name).value;
    WalkOne(listed, next, back);
    var first := listed.items[0];
    WalkOne(first, next, back);
    assert [0][1..] == [];
    assert Select(listed, name, [0]) == Select(first, name, []);
  }

  // ------------------------------------------------------------ the projection

  /** Same consumer, or no consumer in both. */
  predicate Agree(a: Result<string, PathError>, b: Result<string, PathError>) {
    a.Ok? == b.Ok? && (a.Ok? ==> a.value == b.value)
  }

  predicate AllParse(segments: seq<string>) {
    forall s :: s in segments ==> ParseSegment(s).Some?
  }

  /** The claim the walk reads from the root object: the name of the first segment
      that has one, unless an earlier segment already ends the walk. */
  function EntryName(segments: seq<string>): Option<string> {
    if segments == [] then None
    else match ParseSegment(segments[0])
      case None => None
      case Some(Segment(name, indices)) =>
        if name != "" then Some(name) else if indices != [] then None else EntryName(segments[1..])
  }

  lemma {:induction false} WalkReadsEntryOnly(a: Claims, b: Claims, segments: seq<string>)
    requires match EntryName(segments)
             case None => true
             case Some(k) => (k in a <==> k in b) && (k in a ==> a[k] == b[k])
    ensures Agree(Named(Walk(Object(a), segments)), Named(Walk(Object(b), segments)))
    decreases |segments|
  {
    if segments != [] {
      match ParseSegment(segments[0])
      case None =>
      case Some(Segment(name, indices)) =>
        if name == "" && indices == [] {
          WalkReadsEntryOnly(a, b, segments[1..]);
        }
    }
  }

  lemma {:induction false} UnparsablePathFails(node: Json, segments: seq<string>)
    requires !AllParse(segments)
    ensures Walk(node, segments).Err?
    decreases |segments|
  {
    match Step(node, segments[0])
    case Err(e) =>
    case Ok(next) =>
      assert segments == [segments[0]] + segments[1..];
      UnparsablePathFails(next, segments[1..]);
  }

  /** Claims on which a given path succeeds. */
  function Nest(indices: seq<nat>, inner: Json): Json {
    if indices == [] then inner else Array(seq(indices[0] + 1, k => Nest(indices[1..], inner)))
  }

  function Build(segments: seq<string>): Json
    requires AllParse(segments)
    decreases |segments|
  {
    if segments == [] then Text("consumer")
    else
      assert segments[0] in segments;
      var Segment(name, indices) := ParseSegment(segments[0]).value;
      var inner := Nest(indices, Build(segments[1..]));
      if name == "" then inner else Object(map[name := inner])
  }

  lemma {:induction false} SelectNested(indices: seq<nat>, inner: Json, name: string)
    ensures Select(Nest(indices, inner), name, indices) == Ok(inner)
    decreases |indices|
  {
    if indices != [] {
      SelectNested(indices[1..], inner, name);
    }
  }

  lemma {:induction false} WalkBuilt(segments: seq<string>)
    requires AllParse(segments)
    ensures Walk(Build(segments), segments) == Ok(Text("consumer"))
    decreases |segments|
  {
    if segments != [] {
      assert segments[0] in segments;
      var Segment(name, indices) := ParseSegment(segments[0]).value;
      SelectNested(indices, Build(segments[1..]), name);
      WalkBuilt(segments[1..]);
    }
  }

  lemma {:induction false} BuiltAtEntry(segments: seq<string>)
    requires AllParse(segments) && EntryName(segments).Some?
    ensures Build(segments).Object? && Build(segments).fields.Keys == {EntryName(segments).value}
    decreases |segments|
  {
    assert segments[0] in segments;
    var Segment(name, indices) := ParseSegment(segments[0]).value;
    if name == "" {
      BuiltAtEntry(segments[1..]);
    }
  }

  /** Decoding only the configured claims never changes the consumer. */
  ghost predicate ProjectionInvisible(forwarded: seq<string>, path: string) {
    forall claims: Claims ::
      Agree(Consumer(Projected(claims, KeysToDecode(forwarded, path)), path), Consumer(claims, path))
  }

  /** The request-phase projection is invisible for every token exactly when all
      claims are decoded, the path can never succeed, or the claim the walk reads
      from the root is among the decoded keys. */
  lemma ProjectionInvisibleIff(forwarded: seq<string>, path: string)
    requires path != ""
    ensures ProjectionInvisible(forwarded, path) <==>
            var segments := Split(path, '.');
            || forwarded == [] || !AllParse(segments) || EntryName(segments).None?
            || EntryName(segments).value in KeysToDecode(forwarded, path)
  {
    var segments := Split(path, '.');
    var keys := KeysToDecode(forwarded, path);
    if || forwarded == [] || !AllParse(segments) || EntryName(segments).None?
       || EntryName(segments).value in keys
    {
      forall claims: Claims ensures Agree(Consumer(Projected(claims, keys), path), Consumer(claims, path)) {
        ProjectionAgrees(forwarded, path, claims);
      }
    } else {
      WalkBuilt(segments);
      BuiltAtEntry(segments);
      var claims := Build(segments).fields;
      assert EntryName(segments).value in claims;
      assert Consumer(claims, path).Ok?;
      assert Projected(claims, keys) == map[];
    }
  }

  lemma ProjectionAgrees(forwarded: seq<string>, path: string, claims: Claims)
    requires path != ""
    requires var segments := Split(path, '.');
             || forwarded == [] || !AllParse(segments) || EntryName(segments).None?
             || EntryName(segments).value in KeysToDecode(forwarded, path)
    ensures Agree(Consumer(Projected(claims, KeysToDecode(forwarded, path)), path), Consumer(claims, path))
  {
    var segments := Split(path, '.');
    var some := Projected(claims, KeysToDecode(forwarded, path));
    if forwarded != [] {
      if !AllParse(segments) {
        UnparsablePathFails(Object(claims), segments);
        UnparsablePathFails(Object(some), segments);
      } else {
        WalkReadsEntryOnly(some, claims, segments);
        if some == map[] {
          WalkReadsEntryOnly(map[], claims, segments);
          EmptyClaimsFail(segments);
        }
      }
    }
  }

  lemma {:induction false} EmptyClaimsFail(segments: seq<string>)
    ensures Named(Walk(Object(map[]), segments)).Err?
    decreases |segments|
  {
    if segments != [] {
      match ParseSegment(segments[0])
      case None =>
      case Some(Segment(name, indices)) =>
        if name == "" && indices == [] {
          EmptyClaimsFail(segments[1..]);
        }
    }
  }

  /** The request phase keeps no more than it needs: all claims when none is listed,
      otherwise those listed and, for a configured path, the claim it starts from. */
  lemma KeepsNoMore(claims: Claims, forwarded: seq<string>, path: string, k: string)
    ensures k in Projected(claims, KeysToDecode(forwarded, path)) <==>
            k in claims && (forwarded == [] || k in forwarded || (path != "" && k == ClaimPathRoot(path)))
    ensures k in Projected(claims, KeysToDecode(forwarded, path)) ==>
              Projected(claims, KeysToDecode(forwarded, path))[k] == claims[k]
  {
  }

  /** Every path whose first segment names a claim is safe to project for. */
  lemma NamedRootIsSafe(forwarded: seq<string>, path: string)
    requires path != "" && ClaimPathRoot(path) != ""
    ensures ProjectionInvisible(forwarded, path)
  {
    var first := Split(path, '.')[0];
    var keys := KeysToDecode(forwarded, path);
    assert forwarded != [] ==> ClaimPathRoot(path) in keys by {
      if forwarded != [] && ClaimPathRoot(path) !in forwarded {
        assert keys[|forwarded|] == ClaimPathRoot(path);
      }
    }
    ProjectionInvisibleIff(forwarded, path);
  }

  /** A path that starts with a dot reads a claim the projection dropped. */
  lemma DottedRootIsNotSafe()
    ensures !ProjectionInvisible(["sub"], ".iss")
  {
    assert Cut(".iss", '.') == Some(("", "iss"));
    assert Cut("iss", '.') == None;
    assert Split(".iss", '.') == ["", "iss"];
    assert ParseSegment("") == Some(Segment("", []));
    assert ParseSegment("iss") == Some(Segment("iss", []));
    assert ["", "iss"][1..] == ["iss"];
    assert EntryName(["", "iss"]) == EntryName(["iss"]) == Some("iss");
    assert ClaimPathRoot(".iss") == "";
    assert KeysToDecode(["sub"], ".iss") == ["sub", ""];
    ProjectionInvisibleIff(["sub"], ".iss");
  }
}
