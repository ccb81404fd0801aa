/** `clean_path` and `sanitized_path_join` of `cgi.rs`: a byte scanner with a
    backtracking write cursor, proved to compute the component stack of a path. */
module CleanPath {
  import opened Bytes

  type Stack = seq<bytes>

  const DOTDOT: bytes := [DOT, DOT]

  // ---- The specification ------------------------------------------------

  /** The components of a path: maximal slash-free runs, without "." ones. */
  function Components(path: bytes): Stack
    decreases |path|
  {
    if path == [] then [] else
    if path[0] == SLASH then Components(path[1..]) else
    var n := Find(path, SLASH);
    assert n > 0;
    (if path[..n] == [DOT] then [] else [path[..n]]) + Components(path[n..])
  }

  /** What one component does to the stack. */
  function Push(rooted: bool, stack: Stack, c: bytes): Stack {
    if c != DOTDOT then stack + [c] else
    if stack != [] && stack[|stack| - 1] != DOTDOT then stack[..|stack| - 1] else
    if rooted then stack else stack + [c]
  }

  function Resolve(rooted: bool, stack: Stack, cs: Stack): Stack
    decreases |cs|
  {
    if cs == [] then stack else Resolve(rooted, Push(rooted, stack, cs[0]), cs[1..])
  }

  predicate Rooted(path: bytes) {
    path != [] && path[0] == SLASH
  }

  /** The resolved components of a path. */
  function Meaning(path: bytes): Stack {
    Resolve(Rooted(path), [], Components(path))
  }

  /** Components joined by single slashes. */
  function Join(stack: Stack): bytes {
    if stack == [] then [] else
    if |stack| == 1 then stack[0] else
    Join(stack[..|stack| - 1]) + [SLASH] + stack[|stack| - 1]
  }

  function Text(rooted: bool, stack: Stack): bytes {
    (if rooted then [SLASH] else []) + Join(stack)
  }

  function Cleaned(path: bytes): bytes {
    var text := Text(Rooted(path), Meaning(path));
    if text == [] then [DOT] else text
  }

  // ---- Canonical stacks ---------------------------------------------------

  predicate IsName(c: bytes) {
    c != [] && SLASH !in c && c != [DOT]
  }

  /** Names, with ".." only in a leading run, and there only when unrooted. */
  ghost predicate Canonical(rooted: bool, stack: Stack) {
    && (forall i :: 0 <= i < |stack| ==> IsName(stack[i]))
    && (forall i, j :: 0 <= i < j < |stack| && stack[j] == DOTDOT ==> stack[i] == DOTDOT)
    && (rooted ==> DOTDOT !in stack)
  }

  lemma {:induction false} ComponentsAreNames(path: bytes)
    ensures forall i :: 0 <= i < |Components(path)| ==> IsName(Components(path)[i])
    decreases |path|
  {
    if path != [] {
      if path[0] == SLASH {
        ComponentsAreNames(path[1..]);
      } else {
        ComponentsAreNames(path[Find(path, SLASH)..]);
      }
    }
  }

  lemma {:induction false} ResolveIsCanonical(rooted: bool, stack: Stack, cs: Stack)
    requires Canonical(rooted, stack) && forall i :: 0 <= i < |cs| ==> IsName(cs[i])
    ensures Canonical(rooted, Resolve(rooted, stack, cs))
    decreases |cs|
  {
    if cs != [] {
      ResolveIsCanonical(rooted, Push(rooted, stack, cs[0]), cs[1..]);
    }
  }

  lemma MeaningIsCanonical(path: bytes)
    ensures Canonical(Rooted(path), Meaning(path))
  {
    ComponentsAreNames(path);
    ResolveIsCanonical(Rooted(path), [], Components(path));
  }

  /** Pushing names other than ".." only appends. */
  lemma {:induction false} ResolveAppends(rooted: bool, stack: Stack, cs: Stack)
    requires DOTDOT !in cs
    ensures Resolve(rooted, stack, cs) == stack + cs
    decreases |cs|
  {
    if cs == [] {
      assert stack + cs == stack;
    } else {
      ResolveAppends(rooted, stack + [cs[0]], cs[1..]);
      assert stack + [cs[0]] + cs[1..] == stack + cs;
    }
  }

  lemma {:induction false} ResolveSplits(rooted: bool, stack: Stack, a: Stack, b: Stack)
    ensures Resolve(rooted, stack, a + b) == Resolve(rooted, Resolve(rooted, stack, a), b)
    decreases |a|
  {
    if a == [] {
      assert a + b == b;
    } else {
      assert (a + b)[1..] == a[1..] + b;
      ResolveSplits(rooted, Push(rooted, stack, a[0]), a[1..], b);
    }
  }

  /** A canonical stack resolves to itself. */
  lemma {:induction false} ResolveCanonical(rooted: bool, done: Stack, todo: Stack)
    requires Canonical(rooted, done + todo)
    ensures Resolve(rooted, done, todo) == done + todo
    decreases |todo|
  {
    if todo == [] {
      assert done + todo == done;
    } else {
      var c := todo[0];
      assert done + todo == done + [c] + todo[1..];
      assert (done + todo)[|done|] == c;
      if c == DOTDOT {
        if done != [] {
          assert (done + todo)[|done| - 1] == done[|done| - 1];
        }
        assert c in done + todo;
      }
      ResolveCanonical(rooted, done + [c], todo[1..]);
    }
  }

  // ---- Components of joined and concatenated paths ------------------------

  /** A slash separates the components before it from those after it. */
  lemma {:induction false} ComponentsSplit(a: bytes, b: bytes)
    ensures Components(a + [SLASH] + b) == Components(a) + Components(b)
    decreases |a|
  {
    var s := a + [SLASH] + b;
    if a == [] {
      assert s[1..] == b;
    } else if a[0] == SLASH {
      assert s[1..] == a[1..] + [SLASH] + b;
      ComponentsSplit(a[1..], b);
    } else {
      var n := Find(a, SLASH);
      assert s == a[..n] + (a[n..] + [SLASH] + b);
      FindAt(a[..n], SLASH, a[n..] + [SLASH] + b);
      assert Find(s, SLASH) == n;
      assert s[..n] == a[..n];
      assert s[n..] == a[n..] + [SLASH] + b;
      ComponentsSplit(a[n..], b);
      var head: Stack := if a[..n] == [DOT] then [] else [a[..n]];
      assert Components(a) == head + Components(a[n..]);
      assert Components(s) == head + (Components(a[n..]) + Components(b));
    }
  }

  lemma ComponentsOfName(c: bytes)
    requires IsName(c)
    ensures Components(c) == [c]
  {
    FindAt(c, SLASH, []);
    assert c + [] == c;
    assert c[..|c|] == c && c[|c|..] == [];
  }

  lemma {:induction false} ComponentsOfJoin(stack: Stack)
    requires forall i :: 0 <= i < |stack| ==> IsName(stack[i])
    ensures Components(Join(stack)) == stack
    ensures stack != [] ==> Join(stack) != [] && Join(stack)[0] != SLASH
  {
    if |stack| == 1 {
      ComponentsOfName(stack[0]);
      assert stack == [stack[0]];
    } else if stack != [] {
      var init, last := stack[..|stack| - 1], stack[|stack| - 1];
      ComponentsOfJoin(init);
      ComponentsSplit(Join(init), last);
      ComponentsOfName(last);
      assert init + [last] == stack;
    }
  }

  /** The text of a canonical stack means that stack again. */
  lemma MeaningOfText(rooted: bool, stack: Stack)
    requires Canonical(rooted, stack) && Text(rooted, stack) != []
    ensures Rooted(Text(rooted, stack)) == rooted
    ensures Meaning(Text(rooted, stack)) == stack
  {
    ComponentsOfJoin(stack);
    var text := Text(rooted, stack);
    if rooted {
      assert text[1..] == Join(stack);
    } else {
      assert text == Join(stack);
    }
    assert Components(text) == stack;
    assert [] + stack == stack;
    ResolveCanonical(rooted, [], stack);
  }

  /** Cleaning keeps the meaning of every path and its rootedness. */
  lemma CleanedKeepsMeaning(path: bytes)
    ensures Cleaned(path) != []
    ensures Meaning(Cleaned(path)) == Meaning(path)
    ensures Rooted(Cleaned(path)) == Rooted(path)
  {
    MeaningIsCanonical(path);
    var text := Text(Rooted(path), Meaning(path));
    if text == [] {
      if Meaning(path) != [] { ComponentsOfJoin(Meaning(path)); }
      assert [DOT][..1] == [DOT] && [DOT][1..] == [];
      assert Components([DOT]) == [];
    } else {
      MeaningOfText(Rooted(path), Meaning(path));
    }
  }

  /** Cleaning is idempotent, and two paths clean to the same text exactly when
      they have the same rootedness and meaning. */
  lemma CleanedIsNormalForm(a: bytes, b: bytes)
    ensures Cleaned(Cleaned(a)) == Cleaned(a)
    ensures Cleaned(a) == Cleaned(b) <==> Rooted(a) == Rooted(b) && Meaning(a) == Meaning(b)
  {
    CleanedKeepsMeaning(a);
    CleanedKeepsMeaning(b);
  }

  // ---- The scanner ----------------------------------------------------------

  /** `fixed` counts the leading ".." entries, which the scanner never removes. */
  ghost predicate Protected(rooted: bool, stack: Stack, fixed: nat) {
    && fixed <= |stack|
    && (rooted ==> fixed == 0)
    && (forall i :: 0 <= i < fixed ==> stack[i] == DOTDOT)
    && (forall i :: fixed <= i < |stack| ==> stack[i] != DOTDOT)
    && (forall i :: 0 <= i < |stack| ==> IsName(stack[i]))
  }

  lemma {:induction false} JoinPrefix(stack: Stack, n: nat)
    requires n <= |stack| && forall i :: 0 <= i < |stack| ==> IsName(stack[i])
    ensures |Join(stack[..n])| <= |Join(stack)|
    ensures n < |stack| ==> |Join(stack[..n])| < |Join(stack)|
  {
    if n < |stack| {
      var init := stack[..|stack| - 1];
      JoinPrefix(init, n);
      assert init[..n] == stack[..n];
      if |stack| > 1 { assert Join(stack) == Join(init) + [SLASH] + stack[|stack| - 1]; }
    } else {
      assert stack[..n] == stack;
    }
  }

  /** Where the text of the stack below the top ends. */
  lemma BelowTop(rooted: bool, stack: Stack, fixed: nat)
    requires Protected(rooted, stack, fixed) && fixed < |stack|
    ensures var below, top := Text(rooted, stack[..|stack| - 1]), stack[|stack| - 1];
            var text := Text(rooted, stack);
            && |Text(rooted, stack[..fixed])| <= |below|
            && text == below + (if |stack| == 1 then [] else [SLASH]) + top
            && (|stack| == 1 ==> |Text(rooted, stack[..fixed])| == |below|)
  {
    JoinPrefix(stack[..|stack| - 1], fixed);
    assert stack[..|stack| - 1][..fixed] == stack[..fixed];
    if |stack| == 1 {
      assert stack[..0] == [];
    }
  }

  /** The backward scan: it stops exactly at the end of the text below the top. */
  method DropTop(output: bytes, dotdot: nat, ghost rooted: bool, ghost stack: Stack, ghost fixed: nat)
    returns (shorter: bytes)
    requires Protected(rooted, stack, fixed) && output == Text(rooted, stack)
    requires dotdot == |Text(rooted, stack[..fixed])|
    requires |output| > dotdot
    ensures fixed < |stack|
    ensures shorter == Text(rooted, stack[..|stack| - 1])
  {
    assert stack[..|stack|] == stack;
    BelowTop(rooted, stack, fixed);
    ghost var below := Text(rooted, stack[..|stack| - 1]);
    var write := |output| - 1;
    while write > dotdot && output[write] != SLASH
      invariant |below| <= write < |output|
    {
      write := write - 1;
    }
    shorter := output[..write];
  }

  lemma TextAppend(rooted: bool, stack: Stack, c: bytes)
    ensures Text(rooted, stack + [c]) == Text(rooted, stack) + (if stack == [] then [] else [SLASH]) + c
  {
  }

  lemma ResolveStep(rooted: bool, stack: Stack, c: bytes, cs: Stack)
    ensures Resolve(rooted, stack, [c] + cs) == Resolve(rooted, Push(rooted, stack, c), cs)
  {
  }

  predicate EndsAt(rest: bytes, n: nat) {
    n == |rest| || (n < |rest| && rest[n] == SLASH)
  }

  /** The three branches of the scanner, by what they do to the components left. */
  lemma SkipHere(rest: bytes)
    requires rest != [] && (rest[0] == SLASH || (rest[0] == DOT && EndsAt(rest, 1)))
    ensures Components(rest) == Components(rest[1..])
  {
  }

  lemma DotDotHere(rest: bytes)
    requires |rest| >= 2 && rest[0] == DOT && rest[1] == DOT && EndsAt(rest, 2)
    ensures Components(rest) == [DOTDOT] + Components(rest[2..])
  {
    assert rest == DOTDOT + rest[2..];
    FindAt(DOTDOT, SLASH, rest[2..]);
    assert rest[..2] == DOTDOT;
  }

  lemma NameHere(rest: bytes)
    requires rest != [] && rest[0] != SLASH
    requires !(rest[0] == DOT && EndsAt(rest, 1))
    requires !(|rest| >= 2 && rest[0] == DOT && rest[1] == DOT && EndsAt(rest, 2))
    ensures var n := Find(rest, SLASH);
            && IsName(rest[..n]) && rest[..n] != DOTDOT
            && Components(rest) == [rest[..n]] + Components(rest[n..])
  {
  }

  /** The scanner tells an empty stack by the length of its output. */
  lemma TextEmpty(rooted: bool, stack: Stack)
    requires forall i :: 0 <= i < |stack| ==> IsName(stack[i])
    ensures stack == [] <==> |Text(rooted, stack)| == if rooted then 1 else 0
  {
  }

  /** Copies the name at `read` behind a separating slash. */
  method CopyName(path: bytes, start: nat, output: bytes) returns (copied: bytes, read: nat)
    requires start <= |path|
    ensures read == start + Find(path[start..], SLASH)
    ensures copied == output + path[start..][..read - start]
  {
    ghost var n := Find(path[start..], SLASH);
    forall k | start <= k < start + n
      ensures path[k] != SLASH
    {
      assert path[k] == path[start..][..n][k - start];
    }
    copied, read := output, start;
    while read < |path| && path[read] != SLASH
      invariant start <= read <= start + n
      invariant copied == output + path[start..read]
    {
      assert path[read] == path[start..][read - start];
      copied := copied + [path[read]];
      read := read + 1;
    }
    assert path[start..read] == path[start..][..read - start];
  }

  /** A ".." pops the top name, or extends the protected run when unrooted. */
  method Ascend(output: bytes, dotdot: nat, rooted: bool, ghost stack: Stack, ghost fixed: nat)
    returns (shorter: bytes, dotdot': nat, ghost stack': Stack, ghost fixed': nat)
    requires Protected(rooted, stack, fixed) && output == Text(rooted, stack)
    requires dotdot == |Text(rooted, stack[..fixed])|
    ensures stack' == Push(rooted, stack, DOTDOT)
    ensures shorter == Text(rooted, Push(rooted, stack, DOTDOT))
    ensures Protected(rooted, stack', fixed')
    ensures dotdot' == |Text(rooted, stack'[..fixed'])|
  {
    shorter, dotdot', stack', fixed' := output, dotdot, stack, fixed;
    assert stack[..|stack|] == stack;
    if |output| > dotdot {
      shorter := DropTop(output, dotdot, rooted, stack, fixed);
      stack' := stack[..|stack| - 1];
      assert stack'[..fixed] == stack[..fixed];
    } else {
      if fixed < |stack| {
        BelowTop(rooted, stack, fixed);
      }
      if !rooted {
        TextAppend(rooted, stack, DOTDOT);
        TextEmpty(rooted, stack);
        if shorter != [] {
          shorter := shorter + [SLASH];
        }
        shorter := shorter + [DOT, DOT];
        dotdot' := |shorter|;
        stack', fixed' := stack + [DOTDOT], fixed + 1;
        assert stack'[..fixed'] == stack';
      }
    }
  }

  /** `stack` holds what the part of the path before `read` resolves to. */
  ghost predicate Scanned(path: bytes, read: nat, stack: Stack) {
    read <= |path| && Resolve(Rooted(path), stack, Components(path[read..])) == Meaning(path)
  }

  /** The scanner's two tests at `read`. */
  predicate SkipsAt(path: bytes, read: nat)
    requires read < |path|
  {
    path[read] == SLASH || (path[read] == DOT && (read + 1 == |path| || path[read + 1] == SLASH))
  }

  predicate AscendsAt(path: bytes, read: nat)
    requires read < |path|
  {
    && path[read] == DOT && read + 1 < |path| && path[read + 1] == DOT
    && (read + 2 == |path| || path[read + 2] == SLASH)
  }

  lemma ScanSkip(path: bytes, read: nat, stack: Stack)
    requires read < |path| && Scanned(path, read, stack) && SkipsAt(path, read)
    ensures Scanned(path, read + 1, stack)
  {
    SkipHere(path[read..]);
    assert path[read..][1..] == path[read + 1..];
  }

  lemma ScanDotDot(path: bytes, read: nat, stack: Stack)
    requires read < |path| && Scanned(path, read, stack) && AscendsAt(path, read)
    ensures Scanned(path, read + 2, Push(Rooted(path), stack, DOTDOT))
  {
    DotDotHere(path[read..]);
    assert path[read..][2..] == path[read + 2..];
    ResolveStep(Rooted(path), stack, DOTDOT, Components(path[read + 2..]));
  }

  lemma ScanName(path: bytes, read: nat, stack: Stack) returns (name: bytes)
    requires read < |path| && Scanned(path, read, stack)
    requires !SkipsAt(path, read) && !AscendsAt(path, read)
    ensures IsName(name) && name != DOTDOT
    ensures |name| == Find(path[read..], SLASH) && name == path[read..][..|name|]
    ensures Scanned(path, read + |name|, stack + [name])
  {
    var rest := path[read..];
    name := rest[..Find(rest, SLASH)];
    NameHere(rest);
    assert rest[|name|..] == path[read + |name|..];
    ResolveStep(Rooted(path), stack, name, Components(rest[|name|..]));
  }

  lemma ProtectedName(rooted: bool, stack: Stack, fixed: nat, name: bytes)
    requires Protected(rooted, stack, fixed) && IsName(name) && name != DOTDOT
    ensures Protected(rooted, stack + [name], fixed)
    ensures (stack + [name])[..fixed] == stack[..fixed]
  {
  }

  /** Any other component is appended behind a separating slash. */
  method AppendName(output: bytes, path: bytes, at: nat, rooted: bool, ghost stack: Stack, ghost name: bytes)
    returns (longer: bytes, read: nat)
    requires at <= |path| && output == Text(rooted, stack)
    requires forall i :: 0 <= i < |stack| ==> IsName(stack[i])
    requires |name| == Find(path[at..], SLASH) && name == path[at..][..|name|]
    ensures read == at + |name| && longer == Text(rooted, stack + [name])
  {
    TextEmpty(rooted, stack);
    TextAppend(rooted, stack, name);
    longer := output;
    if (rooted && |output| != 1) || (!rooted && output != []) {
      longer := longer + [SLASH];
    }
    longer, read := CopyName(path, at, longer);
  }

  /** The third branch: whatever is neither skipped nor an ascent is a name. */
  method Name(output: bytes, path: bytes, at: nat, rooted: bool, ghost stack: Stack, ghost fixed: nat)
    returns (longer: bytes, read: nat, ghost taller: Stack)
    requires at < |path| && Scanned(path, at, stack) && !SkipsAt(path, at) && !AscendsAt(path, at)
    requires Protected(rooted, stack, fixed) && output == Text(rooted, stack)
    ensures at < read && Scanned(path, read, taller)
    ensures Protected(rooted, taller, fixed) && longer == Text(rooted, taller)
    ensures taller[..fixed] == stack[..fixed]
  {
    ghost var name := ScanName(path, at, stack);
    ProtectedName(rooted, stack, fixed, name);
    longer, read := AppendName(output, path, at, rooted, stack, name);
    taller := stack + [name];
  }

  /** The fast scanner computes the component stack. */
  method Clean(path: bytes) returns (output: bytes)
    ensures output == Cleaned(path)
    ensures output != []
  {
    if path == [] {
      return [DOT];
    }
    var rooted := path[0] == SLASH;
    output := [];
    var read: nat, dotdot: nat := 0, 0;
    if rooted {
      read, dotdot := 1, 1;
      output := [SLASH];
    }
    ghost var stack: Stack, fixed: nat := [], 0;
    assert path[0..] == path;
    while read < |path|
      invariant Scanned(path, read, stack)
      invariant Protected(rooted, stack, fixed)
      invariant output == Text(rooted, stack)
      invariant dotdot == |Text(rooted, stack[..fixed])|
    {
      if SkipsAt(path, read) {
        ScanSkip(path, read, stack);
        read := read + 1;
      } else if AscendsAt(path, read) {
        ScanDotDot(path, read, stack);
        read := read + 2;
        output, dotdot, stack, fixed := Ascend(output, dotdot, rooted, stack, fixed);
      } else {
        output, read, stack := Name(output, path, read, rooted, stack, fixed);
      }
    }
    assert path[read..] == [];
    if output == [] {
      output := [DOT];
    }
  }

  // ---- The join ---------------------------------------------------------------

  function OrDot(root: bytes): bytes {
    if root == [] then [DOT] else root
  }

  function TrailingSlash(request: bytes): bytes {
    if |request| > 1 && request[|request| - 1] == SLASH then [SLASH] else []
  }

  function PathJoin(root: bytes, request: bytes): bytes {
    Cleaned(OrDot(root) + [SLASH] + Cleaned([SLASH] + request)) + TrailingSlash(request)
  }

  method SanitizedPathJoin(root: bytes, request: bytes) returns (joined: bytes)
    ensures joined == PathJoin(root, request)
  {
    var base := if root == [] then [DOT] else root;
    var cleaned := Clean([SLASH] + request);
    joined := Clean(base + [SLASH] + cleaned);
    if |request| > 1 && request[|request| - 1] == SLASH {
      joined := joined + [SLASH];
    }
  }

  lemma TrailingSlashKeepsMeaning(path: bytes)
    requires path != []
    ensures Meaning(path + [SLASH]) == Meaning(path) && Rooted(path + [SLASH]) == Rooted(path)
  {
    ComponentsSplit(path, []);
    assert path + [SLASH] + [] == path + [SLASH];
    assert Components(path) + [] == Components(path);
  }

  lemma RootedCleanedComponents(path: bytes)
    requires Rooted(path)
    ensures Components(Cleaned(path)) == Meaning(path) && DOTDOT !in Meaning(path)
  {
    MeaningIsCanonical(path);
    ComponentsOfJoin(Meaning(path));
    assert Cleaned(path)[1..] == Join(Meaning(path));
  }

  lemma MeaningOfConcat(base: bytes, inner: bytes)
    requires base != [] && DOTDOT !in Components(inner)
    ensures Rooted(base + [SLASH] + inner) == Rooted(base)
    ensures Meaning(base + [SLASH] + inner) == Meaning(base) + Components(inner)
  {
    ComponentsSplit(base, inner);
    ResolveSplits(Rooted(base), [], Components(base), Components(inner));
    ResolveAppends(Rooted(base), Meaning(base), Components(inner));
  }

  lemma OrDotKeepsMeaning(root: bytes)
    ensures Meaning(OrDot(root)) == Meaning(root) && Rooted(OrDot(root)) == Rooted(root)
  {
  }

  /** The components of a join are those of the root followed by those of the
      rooted request, which holds no ".."; so no request removes or replaces a
      component of the root, and nothing but a trailing slash is added to the
      clean text. */
  lemma JoinIsExact(root: bytes, request: bytes)
    ensures PathJoin(root, request) != []
    ensures Rooted(PathJoin(root, request)) == Rooted(root)
    ensures Meaning(PathJoin(root, request)) == Meaning(root) + Meaning([SLASH] + request)
    ensures DOTDOT !in Meaning([SLASH] + request)
    ensures PathJoin(root, request) == Cleaned(PathJoin(root, request)) + TrailingSlash(request)
  {
    var inner := Cleaned([SLASH] + request);
    var whole := OrDot(root) + [SLASH] + inner;
    OrDotKeepsMeaning(root);
    RootedCleanedComponents([SLASH] + request);
    MeaningOfConcat(OrDot(root), inner);
    CleanedKeepsMeaning(whole);
    TrailingSlashKeepsMeaning(Cleaned(whole));
    assert Cleaned(whole) + [] == Cleaned(whole);
    CleanedIsNormalForm(whole, PathJoin(root, request));
  }
}
