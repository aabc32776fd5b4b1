/** The claim-path language: dotted segments with bracketed array indices, walked
    over the decoded token claims to find the consuming participant. */
module ClaimPath {
  import opened Wrappers
  import opened Strings

  datatype Json =
    | Null
    | Boolean(truth: bool)
    | Number(literal: string)
    | Text(text: string)
    | Array(items: seq<Json>)
    | Object(fields: map<string, Json>)

  type Claims = map<string, Json>

  /** Why a path yields no consumer. `Unset` is a configuration mistake; the rest
      name the way a configured path did not resolve. */
  datatype PathError =
    | Unset | NoClaims | BadSegment(segment: string) | NotAnObject(segment: string) | NoClaim(name: string)
    | NotAnArray(name: string) | OutOfRange(index: nat) | NotAConsumer

  /** A parsed segment: a claim name, possibly empty, then explicit indices. */
  datatype Segment = Segment(name: string, indices: seq<nat>)

  // ------------------------------------------------------------------- parsing

  /** The indices of the text after the first "[". */
  function ParseIndices(rest: string): Option<seq<nat>>
    decreases |rest|
  {
    if rest == "" then Some([])
    else match Cut(rest, ']')
      case None => None
      case Some((digits, remainder)) =>
        var index := Atoi(digits);
        if index.None? || index.value < 0 then None
        else if remainder == "" then Some([index.value])
        else if remainder[0] != '[' then None
        else match ParseIndices(remainder[1..])
          case None => None
          case Some(more) => Some([index.value] + more)
  }

  function ParseSegment(segment: string): Option<Segment> {
    match Cut(segment, '[')
    case None => Some(Segment(segment, []))
    case Some((name, rest)) =>
      match ParseIndices(rest)
      case None => None
      case Some(indices) => Some(Segment(name, indices))
  }

  method ParseClaimSegment(segment: string) returns (r: Option<Segment>)
    ensures r == ParseSegment(segment)
  {
    var cut := Cut(segment, '[');
    if cut.None? {
      return Some(Segment(segment, []));
    }
    var (name, rest) := cut.value;
    var indices: seq<nat> := [];
    ghost var whole := ParseIndices(rest);
    assert whole.Some? ==> indices + whole.value == whole.value;
    while rest != ""
      invariant match ParseIndices(rest)
                case None => whole.None?
                case Some(more) => whole == Some(indices + more)
      decreases |rest|
    {
      var closing := Cut(rest, ']');
      if closing.None? {
        return None;
      }
      var (digits, remainder) := closing.value;
      var index := Atoi(digits);
      if index.None? || index.value < 0 {
        return None;
      }
      ghost var here := [index.value as nat];
      ghost var tail := if remainder == "" then Some([])
        else if remainder[0] == '[' then ParseIndices(remainder[1..]) else None;
      assert tail.Some? ==> indices + (here + tail.value) == indices + here + tail.value;
      indices := indices + [index.value];
      if remainder == "" {
        break;
      }
      if remainder[0] != '[' {
        return None;
      }
      rest := remainder[1..];
    }
    assert indices + [] == indices;
    return Some(Segment(name, indices));
  }

  // ------------------------------------------------------------------- walking

  /** A node as an object, stepping into the first element of an array first. */
  function DescendIntoObject(node: Json): Option<Claims> {
    var inner := if node.Array? && node.items != [] then node.items[0] else node;
    if inner.Object? then Some(inner.fields) else None
  }

  function Select(node: Json, name: string, indices: seq<nat>): Result<Json, PathError>
    decreases |indices|
  {
    if indices == [] then Ok(node)
    else if !node.Array? then Err(NotAnArray(name))
    else if indices[0] >= |node.items| then Err(OutOfRange(indices[0]))
    else Select(node.items[indices[0]], name, indices[1..])
  }

  /** One segment of the walk. */
  function Step(node: Json, text: string): Result<Json, PathError> {
    match ParseSegment(text)
    case None => Err(BadSegment(text))
    case Some(Segment(name, indices)) =>
      if name == "" then Select(node, name, indices)
      else match DescendIntoObject(node)
        case None => Err(NotAnObject(text))
        case Some(fields) =>
          if name !in fields then Err(NoClaim(name)) else Select(fields[name], name, indices)
  }

  function Walk(node: Json, segments: seq<string>): Result<Json, PathError>
    decreases |segments|
  {
    if segments == [] then Ok(node)
    else match Step(node, segments[0])
      case Err(e) => Err(e)
      case Ok(next) => Walk(next, segments[1..])
  }

  /** Only a non-empty string names a consumer. */
  function Named(found: Result<Json, PathError>): Result<string, PathError> {
    match found
    case Err(e) => Err(e)
    case Ok(node) => if node.Text? && node.text != "" then Ok(node.text) else Err(NotAConsumer)
  }

  function Consumer(claims: Claims, path: string): Result<string, PathError> {
    if path == "" then Err(Unset)
    else if claims == map[] then Err(NoClaims)
    else Named(Walk(Object(claims), Split(path, '.')))
  }

  method ConsumerFromClaims(claims: Claims, path: string) returns (r: Result<string, PathError>)
    ensures r == Consumer(claims, path)
    ensures r.Ok? ==> r.value != ""
  {
    if path == "" {
      return Err(Unset);
    }
    if claims == map[] {
      return Err(NoClaims);
    }
    var current := Object(claims);
    var segments := Split(path, '.');
    for k := 0 to |segments|
      invariant Walk(Object(claims), segments) == Walk(current, segments[k..])
    {
      var parsed := ParseClaimSegment(segments[k]);
      if parsed.None? {
        return Err(BadSegment(segments[k]));
      }
      var Segment(name, indices) := parsed.value;
      ghost var before := current;
      if name != "" {
        var fields := DescendIntoObject(current);
        if fields.None? {
          return Err(NotAnObject(segments[k]));
        }
        if name !in fields.value {
          return Err(NoClaim(name));
        }
        current := fields.value[name];
      }
      assert Step(before, segments[k]) == Select(current, name, indices);
      ghost var base := current;
      for j := 0 to |indices|
        invariant Select(base, name, indices) == Select(current, name, indices[j..])
      {
        if !current.Array? {
          return Err(NotAnArray(name));
        }
        if indices[j] >= |current.items| {
          return Err(OutOfRange(indices[j]));
        }
        assert indices[j..][1..] == indices[j + 1..];
        current := current.items[indices[j]];
      }
      assert segments[k..][1..] == segments[k + 1..];
    }
    return Named(Ok(current));
  }

  // --------------------------------------------- the request-phase projection

  /** The first claim name of a path, without any index. */
  function ClaimPathRoot(path: string): string {
    var root := Split(path, '.')[0];
    match Cut(root, '[')
    case None => root
    case Some((name, _)) => name
  }

  /** The claim keys the request phase decodes; an empty list means all claims. */
  function KeysToDecode(forwarded: seq<string>, path: string): seq<string> {
    if forwarded == [] || path == "" || ClaimPathRoot(path) in forwarded then forwarded
    else forwarded + [ClaimPathRoot(path)]
  }

  method ClaimKeysToDecode(forwarded: seq<string>, path: string) returns (keys: seq<string>)
    ensures keys == KeysToDecode(forwarded, path)
  {
    if |forwarded| == 0 {
      return [];
    }
    keys := forwarded;
    if path == "" {
      return;
    }
    var root := ClaimPathRoot(path);
    for i := 0 to |keys|
      invariant root !in keys[..i]
    {
      if keys[i] == root {
        return;
      }
    }
    keys := keys + [root];
  }

  function Projected(all: Claims, keys: seq<string>): Claims {
    if keys == [] then all else map k | k in all && k in keys :: all[k]
  }

  /** DecodeClaims after the token's payload has been parsed. */
  method DecodeClaims(all: Claims, keys: seq<string>) returns (claims: Claims)
    ensures claims == Projected(all, keys)
  {
    if |keys| == 0 {
      return all;
    }
    claims := map[];
    for i := 0 to |keys|
      invariant claims == map k | k in all && k in keys[..i] :: all[k]
    {
      if keys[i] in all {
        claims := claims[keys[i] := all[keys[i]]];
      }
    }
    assert keys[..|keys|] == keys;
  }
}
