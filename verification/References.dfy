/**
 * What the text of a reference says: the file before `#`, the keys of the
 * pointer after it, and so the place it stands for.
 */
module References {
  import opened Domain
  import Keys
  import opened Resolver

  // --- Splitting undoes joining ---

  lemma {:induction false} SplitAtFirst(a: string, b: string, sep: char)
    requires sep !in a
    ensures Split(a + [sep] + b, sep) == [a] + Split(b, sep)
  {
    var s := a + [sep] + b;
    if a == "" {
      assert s[1..] == b;
    } else {
      assert s[1..] == a[1..] + [sep] + b && s[0] == a[0] && a[0] in a;
      SplitAtFirst(a[1..], b, sep);
      assert [a[0]] + a[1..] == a;
    }
  }

  lemma {:induction false} SplitOfOne(a: string, sep: char)
    requires sep !in a
    ensures Split(a, sep) == [a]
  {
    if a != "" {
      assert a[0] in a;
      SplitOfOne(a[1..], sep);
      assert [a[0]] + a[1..] == a;
    }
  }

  /** Splitting takes apart exactly what was joined. */
  lemma {:induction false} SplitUndoesIntersperse(parts: seq<string>, sep: char)
    requires |parts| >= 1 && forall part :: part in parts ==> sep !in part
    ensures Split(Intersperse(parts, sep), sep) == parts
  {
    assert parts[0] in parts;
    if |parts| == 1 {
      SplitOfOne(parts[0], sep);
    } else {
      SplitAtFirst(parts[0], Intersperse(parts[1..], sep), sep);
      SplitUndoesIntersperse(parts[1..], sep);
      assert [parts[0]] + parts[1..] == parts;
    }
  }

  lemma {:induction false} IntersperseKeepsOut(parts: seq<string>, sep: char, c: char)
    requires |parts| >= 1 && c != sep && forall part :: part in parts ==> c !in part
    ensures c !in Intersperse(parts, sep)
  {
    assert parts[0] in parts;
    if |parts| > 1 { IntersperseKeepsOut(parts[1..], sep, c); }
  }

  // --- Reading a reference ---

  /** Written as `file#/key/key`, for instance `./schemas.yaml#/Error`. */
  function Written(file: string, steps: seq<string>): string
    requires |steps| >= 1
  {
    file + "#/" + Intersperse(steps, '/')
  }

  predicate PlainSteps(steps: seq<string>) {
    |steps| >= 1 && forall step :: step in steps ==> '/' !in step && '#' !in step
  }

  function Decoded(env: Env, steps: seq<string>): seq<string> {
    seq(|steps|, i requires 0 <= i < |steps| => env.decode(steps[i]))
  }

  /** The file part is what stands before the hash, and the steps are the decoded keys after it, in order. */
  lemma ReferenceIsRead(env: Env, file: string, steps: seq<string>)
    requires '#' !in file && PlainSteps(steps)
    ensures FilePart(Written(file, steps)) == file
    ensures Pointer(env, Written(file, steps)) == Decoded(env, steps)
  {
    var text := Intersperse(steps, '/');
    var fragment := "/" + text;
    IntersperseKeepsOut(steps, '/', '#');
    SplitUndoesIntersperse(steps, '/');
    assert Written(file, steps) == file + ['#'] + fragment;
    SplitAtFirst(file, fragment, '#');
    SplitOfOne(fragment, '#');
    assert fragment[1..] == text;
  }

  /** Without a fragment, or with an empty one, there are no steps. */
  lemma WholeFileIsRead(env: Env, file: string)
    requires '#' !in file
    ensures FilePart(file) == file && Pointer(env, file) == []
    ensures FilePart(file + "#") == file && Pointer(env, file + "#") == []
  {
    SplitOfOne(file, '#');
    SplitAtFirst(file, "", '#');
    assert file + "#" == file + ['#'] + "";
  }

  /** The last step of a path is taken last: reading goes from the root down. */
  lemma {:induction false} LastStepIsLast(n: Node, path: seq<string>, step: string)
    ensures Get(n, path + [step]) == Child(Get(n, path), step)
    decreases |path|
  {
    if path == [] {
      assert [step][1..] == [];
      assert Get(Child(n, step), []) == Child(n, step);
      assert path + [step] == [step];
    } else {
      assert (path + [step])[0] == path[0] && (path + [step])[1..] == path[1..] + [step];
      LastStepIsLast(Child(n, path[0]), path[1..], step);
    }
  }

  lemma {:induction false} DecimalIsCanonical(i: nat)
    ensures var s := Keys.Decimal(i);
      IsDigits(s) && (s == "0" || s[0] != '0') && DigitsValue(s) == i
  {
    if i >= 10 {
      var init := Keys.Decimal(i / 10);
      DecimalIsCanonical(i / 10);
      var s := Keys.Decimal(i);
      assert s[..|s| - 1] == init && s[0] == init[0];
      assert DigitsValue("0") == 10 * DigitsValue("0"[..0]);
    } else {
      var s := Keys.Decimal(i);
      assert s[..0] == "" && DigitsValue(s[..0]) == 0;
    }
  }

  /** Item i of an array is read under the decimal text of i. */
  lemma ItemsAreReadByIndex(items: seq<Node>, i: nat)
    requires i < |items|
    ensures Child(Arr(items), Keys.Decimal(i)) == items[i]
  {
    DecimalIsCanonical(i);
  }

  /**
   * Where a reference leads: in the file it names, joined to the file it
   * appears in, or in that file itself when it names none, to what reading its
   * decoded keys one after the other gives; a missing file throws.
   */
  lemma ReferenceLeadsToItsKeys(env: Env, from: string, file: string, steps: seq<string>)
    requires '#' !in file && PlainSteps(steps) && from in env.files
    ensures var there := if file == "" then from else env.join(from, file);
      Target(env, from, Written(file, steps)) ==
        if there in env.files then Ok(Place(Get(env.files[there], Decoded(env, steps)), there)) else Throws
  {
    ReferenceIsRead(env, file, steps);
  }

  lemma ReferenceLeadsToTheFile(env: Env, from: string, file: string)
    requires '#' !in file && file != "" && from in env.files
    ensures var there := env.join(from, file);
      Target(env, from, file) == if there in env.files then Ok(Place(env.files[there], there)) else Throws
  {
    WholeFileIsRead(env, file);
  }

  /** A reference to one key of another file, such as `./schemas.yaml#/Error`, is the value under that key. */
  lemma KeyOfAnotherFile(env: Env, from: string, file: string, key: string, fields: map<string, Node>)
    requires '#' !in file && file != "" && '/' !in key && '#' !in key && from in env.files
    requires var there := env.join(from, file); there in env.files && env.files[there] == Obj(fields)
    requires env.decode(key) in fields
    ensures Target(env, from, file + "#/" + key) == Ok(Place(fields[env.decode(key)], env.join(from, file)))
  {
    ReferenceLeadsToItsKeys(env, from, file, [key]);
    assert Written(file, [key]) == file + "#/" + key;
    assert Decoded(env, [key]) == [env.decode(key)];
    LastStepIsLast(Obj(fields), [], env.decode(key));
    assert [] + [env.decode(key)] == [env.decode(key)];
  }
}
