/**
 * The multi-file `$ref` resolver of the API contract: references are replaced
 * by what they point at, and the base file changes with every jump.
 */
module Resolver {
  import opened Domain

  /** A loaded YAML document. Undefined is what reading a missing property gives. */
  datatype Node =
    | Null
    | Undefined
    | Str(s: string)
    | Other(text: string)
    | Arr(items: seq<Node>)
    | Obj(fields: map<string, Node>)

  /** Reading a file that is not there throws. */
  datatype Outcome<T> = Ok(value: T) | Throws

  datatype Place = Place(node: Node, file: string)

  /**
   * files are the parsed documents by absolute path; join resolves a relative
   * path against the directory of a file; decode is decodeURIComponent.
   */
  datatype Env = Env(files: map<string, Node>, join: (string, string) -> string, decode: string -> string)

  // --- Reference text ---

  /** String.split on one character: never empty. */
  function Split(s: string, sep: char): (parts: seq<string>)
    ensures |parts| >= 1
  {
    if s == "" then [""]
    else
      var rest := Split(s[1..], sep);
      if s[0] == sep then [""] + rest else [[s[0]] + rest[0]] + rest[1..]
  }

  function Intersperse(parts: seq<string>, sep: char): string
    requires |parts| >= 1
  {
    if |parts| == 1 then parts[0] else parts[0] + [sep] + Intersperse(parts[1..], sep)
  }

  /** Splitting loses nothing and leaves no separator inside a part. */
  lemma {:induction false} SplitIsExact(s: string, sep: char)
    ensures Intersperse(Split(s, sep), sep) == s
    ensures forall part :: part in Split(s, sep) ==> sep !in part
  {
    if s != "" {
      var rest := Split(s[1..], sep);
      SplitIsExact(s[1..], sep);
      var parts := Split(s, sep);
      if s[0] == sep {
        assert parts[1..] == rest;
      } else {
        assert parts[1..] == rest[1..];
        assert rest[0] in rest;
      }
      assert s == [s[0]] + s[1..];
    }
  }

  function FilePart(ref: string): string {
    Split(ref, '#')[0]
  }

  /** The steps of the pointer; none when the fragment is absent or empty. */
  function Pointer(env: Env, ref: string): seq<string> {
    var parts := Split(ref, '#');
    if |parts| < 2 || parts[1] == "" then []
    else
      var steps := Split(parts[1][1..], '/');
      seq(|steps|, i requires 0 <= i < |steps| => env.decode(steps[i]))
  }

  // --- Looking into a document ---

  predicate IsDigits(s: string) {
    s != "" && forall i :: 0 <= i < |s| ==> '0' <= s[i] <= '9'
  }

  function DigitsValue(s: string): nat
    requires forall i :: 0 <= i < |s| ==> '0' <= s[i] <= '9'
  {
    if s == "" then 0 else 10 * DigitsValue(s[..|s| - 1]) + (s[|s| - 1] as int - '0' as int)
  }

  /** Property access: object keys, canonical array indices, and undefined otherwise. */
  function Child(n: Node, part: string): Node {
    match n
    case Obj(fields) => if part in fields then fields[part] else Undefined
    case Arr(items) =>
      if IsDigits(part) && (part == "0" || part[0] != '0') && DigitsValue(part) < |items|
      then items[DigitsValue(part)] else Undefined
    case _ => Undefined
  }

  /** The walk of a pointer; past null or undefined it stays undefined. */
  function Get(n: Node, path: seq<string>): Node
    decreases |path|
  {
    if path == [] then n else Get(Child(n, path[0]), path[1..])
  }

  predicate IsRef(n: Node) {
    n.Obj? && "$ref" in n.fields && n.fields["$ref"].Str?
  }

  function RefOf(n: Node): string
    requires IsRef(n)
  {
    n.fields["$ref"].s
  }

  predicate IsObject(n: Node) {
    n.Arr? || n.Obj? || n.Null?
  }

  /** What a reference found in file from points at, and the file that is in. */
  function Target(env: Env, from: string, ref: string): Outcome<Place> {
    if from !in env.files then Throws
    else
      var file := if FilePart(ref) == "" then from else env.join(from, FilePart(ref));
      if file !in env.files then Throws
      else Ok(Place(Get(env.files[file], Pointer(env, ref)), file))
  }

  // --- Acyclic references ---

  /** Ranks of references (file, text); references nobody follows need none. */
  type Rank = (string, string) -> Option<nat>

  /** Every reference in the node, read in that file, has a rank below n. */
  predicate RefsBelow(node: Node, file: string, rank: Rank, n: nat) {
    if IsRef(node) then rank(file, RefOf(node)).Some? && rank(file, RefOf(node)).value < n
    else match node
      case Arr(items) => forall i :: 0 <= i < |items| ==> RefsBelow(items[i], file, rank, n)
      case Obj(fields) => forall k :: k in fields ==> RefsBelow(fields[k], file, rank, n)
      case _ => true
  }

  /**
   * The reference graph has no cycle: whatever is referred to from within the
   * target of a ranked reference is ranked too, and below it.
   */
  ghost predicate Acyclic(env: Env, rank: Rank) {
    forall from, ref :: rank(from, ref).Some? && Target(env, from, ref).Ok? ==>
      RefsBelow(Target(env, from, ref).value.node, Target(env, from, ref).value.file, rank, rank(from, ref).value)
  }

  lemma {:induction false} RefsBelowIsMonotone(node: Node, file: string, rank: Rank, m: nat, n: nat)
    requires RefsBelow(node, file, rank, m) && m <= n
    ensures RefsBelow(node, file, rank, n)
  {
    if !IsRef(node) {
      match node
      case Arr(items) => forall i | 0 <= i < |items| ensures RefsBelow(items[i], file, rank, n) {
          RefsBelowIsMonotone(items[i], file, rank, m, n);
        }
      case Obj(fields) => forall k | k in fields ensures RefsBelow(fields[k], file, rank, n) {
          RefsBelowIsMonotone(fields[k], file, rank, m, n);
        }
      case _ =>
    }
  }

  // --- Resolution ---

  /**
   * resolveAll. It terminates because a jump lowers the rank bound and any
   * other call goes to a part of the node.
   */
  ghost function Resolve(env: Env, rank: Rank, node: Node, file: string, n: nat): Outcome<Node>
    requires Acyclic(env, rank) && RefsBelow(node, file, rank, n)
    decreases n, node
  {
    if IsRef(node) then
      var target := Target(env, file, RefOf(node));
      if target.Throws? then Throws
      else if IsObject(target.value.node)
        then Resolve(env, rank, target.value.node, target.value.file, rank(file, RefOf(node)).value)
      else Ok(target.value.node)
    else match node
      case Arr(items) =>
        if exists i :: 0 <= i < |items| && Resolve(env, rank, items[i], file, n).Throws? then Throws
        else Ok(Arr(seq(|items|, i requires 0 <= i < |items| => Resolve(env, rank, items[i], file, n).value)))
      case Obj(fields) =>
        if exists k :: k in fields && Resolve(env, rank, fields[k], file, n).Throws? then Throws
        else Ok(Obj(map k | k in fields :: Resolve(env, rank, fields[k], file, n).value))
      case _ => Ok(node)
  }

  /** An array resolves item by item. */
  lemma ResolveArray(env: Env, rank: Rank, node: Node, file: string, n: nat, results: seq<Node>)
    requires Acyclic(env, rank) && RefsBelow(node, file, rank, n)
    requires node.Arr? && |results| == |node.items|
    requires forall i :: 0 <= i < |results| ==> Resolve(env, rank, node.items[i], file, n) == Ok(results[i])
    ensures Resolve(env, rank, node, file, n) == Ok(Arr(results))
  {
    var out := Resolve(env, rank, node, file, n);
    assert out.Ok? && out.value.Arr?;
    forall i | 0 <= i < |results| ensures out.value.items[i] == results[i] {
      assert Resolve(env, rank, node.items[i], file, n) == Ok(results[i]);
    }
    assert out.value.items == results;
  }

  /** An object resolves field by field. */
  lemma ResolveObject(env: Env, rank: Rank, node: Node, file: string, n: nat, results: map<string, Node>)
    requires Acyclic(env, rank) && RefsBelow(node, file, rank, n)
    requires node.Obj? && !IsRef(node) && results.Keys == node.fields.Keys
    requires forall k :: k in node.fields ==> Resolve(env, rank, node.fields[k], file, n) == Ok(results[k])
    ensures Resolve(env, rank, node, file, n) == Ok(Obj(results))
  {
    var out := Resolve(env, rank, node, file, n);
    assert out.Ok? && out.value.Obj?;
    assert out.value.fields.Keys == results.Keys;
    forall k | k in results ensures out.value.fields[k] == results[k] {
      assert Resolve(env, rank, node.fields[k], file, n) == Ok(results[k]);
    }
    assert out.value.fields == results;
  }

  // --- The meaning of a contract, defined without resolving it ---

  /** Jump through references until the place holds something else. */
  ghost function Chase(env: Env, rank: Rank, node: Node, file: string, n: nat): Outcome<Place>
    requires Acyclic(env, rank) && RefsBelow(node, file, rank, n)
    decreases n
  {
    if !IsRef(node) then Ok(Place(node, file))
    else
      var target := Target(env, file, RefOf(node));
      if target.Throws? then Throws
      else Chase(env, rank, target.value.node, target.value.file, rank(file, RefOf(node)).value)
  }

  lemma {:induction false} ChaseEndsOffReferences(env: Env, rank: Rank, node: Node, file: string, n: nat)
    requires Acyclic(env, rank) && RefsBelow(node, file, rank, n) && Chase(env, rank, node, file, n).Ok?
    ensures var p := Chase(env, rank, node, file, n).value; !IsRef(p.node) && RefsBelow(p.node, p.file, rank, n)
    decreases n
  {
    if IsRef(node) {
      var target := Target(env, file, RefOf(node));
      var m := rank(file, RefOf(node)).value;
      ChaseEndsOffReferences(env, rank, target.value.node, target.value.file, m);
      var p := Chase(env, rank, node, file, n).value;
      RefsBelowIsMonotone(p.node, p.file, rank, m, n);
    }
  }

  lemma ChildRefsBelow(node: Node, file: string, rank: Rank, n: nat, part: string)
    requires RefsBelow(node, file, rank, n) && !IsRef(node)
    ensures RefsBelow(Child(node, part), file, rank, n)
  {
  }

  /**
   * Walk a path through the original files, jumping through every reference
   * met on the way relative to the file it appears in.
   */
  ghost function JumpWalk(env: Env, rank: Rank, node: Node, file: string, n: nat, path: seq<string>): Outcome<Place>
    requires Acyclic(env, rank) && RefsBelow(node, file, rank, n)
    decreases |path|
  {
    var here := Chase(env, rank, node, file, n);
    if here.Throws? || path == [] then here
    else
      ChaseEndsOffReferences(env, rank, node, file, n);
      ChildRefsBelow(here.value.node, here.value.file, rank, n, path[0]);
      JumpWalk(env, rank, Child(here.value.node, path[0]), here.value.file, n, path[1..])
  }

  /** The bound is only a measure: the result does not depend on it. */
  lemma {:induction false} BoundDoesNotMatter(env: Env, rank: Rank, node: Node, file: string, m: nat, n: nat)
    requires Acyclic(env, rank) && RefsBelow(node, file, rank, m) && RefsBelow(node, file, rank, n)
    ensures Resolve(env, rank, node, file, m) == Resolve(env, rank, node, file, n)
    decreases node
  {
    if !IsRef(node) {
      match node
      case Arr(items) => forall i | 0 <= i < |items|
          ensures Resolve(env, rank, items[i], file, m) == Resolve(env, rank, items[i], file, n)
        {
          BoundDoesNotMatter(env, rank, items[i], file, m, n);
        }
        if forall i :: 0 <= i < |items| ==> Resolve(env, rank, items[i], file, n).Ok? {
          var results := seq(|items|, i requires 0 <= i < |items| => Resolve(env, rank, items[i], file, n).value);
          ResolveArray(env, rank, node, file, m, results);
          ResolveArray(env, rank, node, file, n, results);
        }
      case Obj(fields) => forall k | k in fields
          ensures Resolve(env, rank, fields[k], file, m) == Resolve(env, rank, fields[k], file, n)
        {
          BoundDoesNotMatter(env, rank, fields[k], file, m, n);
        }
        if forall k :: k in fields ==> Resolve(env, rank, fields[k], file, n).Ok? {
          var results := map k | k in fields :: Resolve(env, rank, fields[k], file, n).value;
          ResolveObject(env, rank, node, file, m, results);
          ResolveObject(env, rank, node, file, n, results);
        }
      case _ =>
    }
  }

  /** A reference resolves to what its chase ends in, resolved there. */
  lemma {:induction false} ResolveFollowsChase(env: Env, rank: Rank, node: Node, file: string, n: nat)
    requires Acyclic(env, rank) && RefsBelow(node, file, rank, n)
    ensures var c := Chase(env, rank, node, file, n);
      if c.Throws? then Resolve(env, rank, node, file, n).Throws?
      else RefsBelow(c.value.node, c.value.file, rank, n) && !IsRef(c.value.node) &&
           Resolve(env, rank, node, file, n) == Resolve(env, rank, c.value.node, c.value.file, n)
    decreases n
  {
    if IsRef(node) {
      var target := Target(env, file, RefOf(node));
      var m := rank(file, RefOf(node)).value;
      if target.Ok? {
        ResolveFollowsChase(env, rank, target.value.node, target.value.file, m);
        var c := Chase(env, rank, node, file, n);
        if c.Ok? {
          ChaseEndsOffReferences(env, rank, node, file, n);
          BoundDoesNotMatter(env, rank, c.value.node, c.value.file, m, n);
        }
      }
    }
  }

  /** One step into a resolved document is one step into the original, resolved. */
  lemma ResolveCommutesWithChild(env: Env, rank: Rank, node: Node, file: string, n: nat, part: string)
    requires Acyclic(env, rank) && RefsBelow(node, file, rank, n) && !IsRef(node)
    requires Resolve(env, rank, node, file, n).Ok?
    ensures RefsBelow(Child(node, part), file, rank, n)
    ensures Resolve(env, rank, Child(node, part), file, n) == Ok(Child(Resolve(env, rank, node, file, n).value, part))
  {
    ChildRefsBelow(node, file, rank, n, part);
  }

  /**
   * Meaning is preserved: looking up any path in the resolved contract gives
   * the resolution of the place that walking the original files and jumping
   * through references leads to.
   */
  lemma {:induction false} LookupIsJumpWalk(env: Env, rank: Rank, node: Node, file: string, n: nat, path: seq<string>)
    requires Acyclic(env, rank) && RefsBelow(node, file, rank, n)
    requires Resolve(env, rank, node, file, n).Ok?
    ensures var walk := JumpWalk(env, rank, node, file, n, path);
      && walk.Ok? && !IsRef(walk.value.node) && RefsBelow(walk.value.node, walk.value.file, rank, n)
      && Resolve(env, rank, walk.value.node, walk.value.file, n) ==
        Ok(Get(Resolve(env, rank, node, file, n).value, path))
    decreases |path|
  {
    ResolveFollowsChase(env, rank, node, file, n);
    var here := Chase(env, rank, node, file, n).value;
    if path != [] {
      ResolveCommutesWithChild(env, rank, here.node, here.file, n, path[0]);
      LookupIsJumpWalk(env, rank, Child(here.node, path[0]), here.file, n, path[1..]);
    }
  }

  /** What resolution keeps of a place that is not a reference: scalars, lengths and keys. */
  ghost predicate SameShape(a: Node, b: Node) {
    match a
    case Arr(items) => b.Arr? && |b.items| == |items|
    case Obj(fields) => b.Obj? && b.fields.Keys == fields.Keys
    case _ => b == a
  }

  /** Every path of the resolved contract shows the very value, length or keys the jump walk finds. */
  lemma LookupShowsTheOriginal(env: Env, rank: Rank, node: Node, file: string, n: nat, path: seq<string>)
    requires Acyclic(env, rank) && RefsBelow(node, file, rank, n)
    requires Resolve(env, rank, node, file, n).Ok?
    ensures var walk := JumpWalk(env, rank, node, file, n, path);
      walk.Ok? && SameShape(walk.value.node, Get(Resolve(env, rank, node, file, n).value, path))
  {
    LookupIsJumpWalk(env, rank, node, file, n, path);
  }

  // --- No reference is left ---

  /** Every `$ref` key in the node holds a string. */
  predicate StringRefs(node: Node) {
    match node
    case Arr(items) => forall i :: 0 <= i < |items| ==> StringRefs(items[i])
    case Obj(fields) => ("$ref" in fields ==> fields["$ref"].Str?) && forall k :: k in fields ==> StringRefs(fields[k])
    case _ => true
  }

  predicate NoRefs(node: Node) {
    match node
    case Arr(items) => forall i :: 0 <= i < |items| ==> NoRefs(items[i])
    case Obj(fields) => "$ref" !in fields && forall k :: k in fields ==> NoRefs(fields[k])
    case _ => true
  }

  lemma {:induction false} GetKeepsStringRefs(node: Node, path: seq<string>)
    requires StringRefs(node)
    ensures StringRefs(Get(node, path))
    decreases |path|
  {
    if path != [] {
      GetKeepsStringRefs(Child(node, path[0]), path[1..]);
    }
  }

  /** With string-valued references throughout, the resolved contract contains no `$ref` at all. */
  lemma {:induction false} ResolvedHasNoRefs(env: Env, rank: Rank, node: Node, file: string, n: nat)
    requires Acyclic(env, rank) && RefsBelow(node, file, rank, n)
    requires StringRefs(node) && forall f :: f in env.files ==> StringRefs(env.files[f])
    requires Resolve(env, rank, node, file, n).Ok?
    ensures NoRefs(Resolve(env, rank, node, file, n).value)
    decreases n, node
  {
    if IsRef(node) {
      var target := Target(env, file, RefOf(node)).value;
      GetKeepsStringRefs(env.files[target.file], Pointer(env, RefOf(node)));
      if IsObject(target.node) {
        ResolvedHasNoRefs(env, rank, target.node, target.file, rank(file, RefOf(node)).value);
      }
    } else {
      match node
      case Arr(items) => forall i | 0 <= i < |items| ensures NoRefs(Resolve(env, rank, items[i], file, n).value) {
          ResolvedHasNoRefs(env, rank, items[i], file, n);
        }
      case Obj(fields) => forall k | k in fields ensures NoRefs(Resolve(env, rank, fields[k], file, n).value) {
          ResolvedHasNoRefs(env, rank, fields[k], file, n);
        }
      case _ =>
    }
  }

  /**
   * The condition matters: a property that is itself called `$ref` and holds
   * no string, as a schema may have, is left in the output.
   */
  lemma NonStringRefStays(env: Env, rank: Rank, file: string)
    requires Acyclic(env, rank)
    ensures var node := Obj(map["$ref" := Other("true")]);
      RefsBelow(node, file, rank, 0) && Resolve(env, rank, node, file, 0) == Ok(node)
  {
    var node := Obj(map["$ref" := Other("true")]);
    assert RefsBelow(node.fields["$ref"], file, rank, 0);
    assert Resolve(env, rank, node.fields["$ref"], file, 0) == Ok(Other("true"));
    ResolveObject(env, rank, node, file, 0, node.fields);
  }

  // --- The resolver as it runs ---

  class ContractResolver {
    const env: Env
    /** Documents loaded through a reference to another file, kept for later references. */
    var fileCache: map<string, Node>

    ghost predicate Valid()
      reads this
    {
      forall f :: f in fileCache ==> f in env.files && fileCache[f] == env.files[f]
    }

    constructor (env: Env)
      ensures Valid() && this.env == env && fileCache == map[]
    {
      this.env := env;
      fileCache := map[];
    }

    /** The cache never changes what a reference points at. */
    method ResolveRef(from: string, ref: string) returns (place: Outcome<Place>)
      requires Valid()
      modifies this
      ensures Valid()
      ensures place == Target(env, from, ref)
    {
      if from !in env.files {
        return Throws;
      }
      var target := env.files[from];
      var targetFile := from;
      var filePart := FilePart(ref);
      if filePart != "" {
        targetFile := env.join(from, filePart);
        if targetFile !in fileCache {
          if targetFile !in env.files {
            return Throws;
          }
          fileCache := fileCache[targetFile := env.files[targetFile]];
        }
        target := fileCache[targetFile];
      }
      var pointer := Pointer(env, ref);
      var current := target;
      var i := 0;
      while i < |pointer|
        invariant 0 <= i <= |pointer|
        invariant Get(current, pointer[i..]) == Get(target, pointer)
      {
        if current.Null? || current.Undefined? {
          UndefinedStays(current, pointer[i..]);
          return Ok(Place(Undefined, targetFile));
        }
        current := Child(current, pointer[i]);
        assert pointer[i..][1..] == pointer[i + 1..];
        i := i + 1;
      }
      place := Ok(Place(current, targetFile));
    }

    /**
     * Resolution with the cache and the loops computes exactly the resolved
     * contract, and throws exactly when a file is missing on the way.
     */
    method ResolveAll(node: Node, file: string, ghost rank: Rank, ghost n: nat) returns (out: Outcome<Node>)
      requires Valid() && Acyclic(env, rank) && RefsBelow(node, file, rank, n)
      modifies this
      ensures Valid()
      ensures out == Resolve(env, rank, node, file, n)
      decreases n, node
    {
      if IsRef(node) {
        var place := ResolveRef(file, RefOf(node));
        if place.Throws? {
          return Throws;
        }
        if IsObject(place.value.node) {
          out := ResolveAll(place.value.node, place.value.file, rank, rank(file, RefOf(node)).value);
          return;
        }
        return Ok(place.value.node);
      }
      match node
      case Arr(items) =>
        var results: seq<Node> := [];
        var i := 0;
        while i < |items|
          invariant 0 <= i <= |items| && |results| == i && Valid()
          invariant forall j :: 0 <= j < i ==> Resolve(env, rank, items[j], file, n) == Ok(results[j])
        {
          var item := ResolveAll(items[i], file, rank, n);
          if item.Throws? {
            return Throws;
          }
          results := results + [item.value];
          i := i + 1;
        }
        ResolveArray(env, rank, node, file, n, results);
        out := Ok(Arr(results));
      case Obj(fields) =>
        var results: map<string, Node> := map[];
        var rest := fields.Keys;
        while rest != {}
          invariant rest <= fields.Keys && results.Keys == fields.Keys - rest && Valid()
          invariant forall k :: k in results ==> Resolve(env, rank, fields[k], file, n) == Ok(results[k])
          decreases |rest|
        {
          var k :| k in rest;
          var value := ResolveAll(fields[k], file, rank, n);
          if value.Throws? {
            return Throws;
          }
          results := results[k := value.value];
          rest := rest - {k};
        }
        ResolveObject(env, rank, node, file, n, results);
        out := Ok(Obj(results));
      case _ =>
        out := Ok(node);
    }
  }

  lemma {:induction false} UndefinedStays(n: Node, path: seq<string>)
    requires n.Null? || n.Undefined?
    requires path != []
    ensures Get(n, path) == Undefined
    decreases |path|
  {
    if |path| > 1 { UndefinedStays(Child(n, path[0]), path[1..]); }
  }
}
