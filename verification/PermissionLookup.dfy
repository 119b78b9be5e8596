/** Which permission a request path needs: the registered path itself, or the longest registered
    prefix made of whole segments. */
module PermissionLookup {
  import opened Text
  import opened Wrappers

  // ---- splitting and joining at '/' ----

  function Join(parts: seq<string>): string
    requires |parts| >= 1
  {
    if |parts| == 1 then parts[0] else parts[0] + "/" + Join(parts[1..])
  }

  function StripRight(s: string): string {
    if |s| > 0 && s[|s| - 1] == '/' then StripRight(s[..|s| - 1]) else s
  }

  lemma {:induction false} JoinSplit(s: string)
    ensures Join(Split(s, '/')) == s
    decreases |s|
  {
    var i := Find(s, '/');
    if i < |s| {
      var rest := Split(s[i + 1..], '/');
      JoinSplit(s[i + 1..]);
      assert ([s[..i]] + rest)[1..] == rest;
      CutAt(s, i);
    }
  }

  /** Splitting distributes over a slash. */
  lemma {:induction false} SplitConcat(k: string, rest: string)
    ensures Split(k + "/" + rest, '/') == Split(k, '/') + Split(rest, '/')
    decreases |k|
  {
    var i := Find(k, '/');
    var s := k + "/" + rest;
    if i == |k| {
      assert s[..i] == k == k[..i];
      FindFirst(s, '/', i);
      assert s[i + 1..] == rest;
    } else {
      assert s[..i] == k[..i];
      FindFirst(s, '/', i);
      assert s[i + 1..] == k[i + 1..] + "/" + rest;
      SplitConcat(k[i + 1..], rest);
      assert Split(s, '/') == [k[..i]] + (Split(k[i + 1..], '/') + Split(rest, '/'));
    }
  }

  lemma SplitCons(head: string, text: string)
    requires '/' !in head
    ensures Split(head + "/" + text, '/') == [head] + Split(text, '/')
  {
    SplitPlain(head, '/');
    SplitConcat(head, text);
  }

  lemma {:induction false} SplitJoin(parts: seq<string>)
    requires |parts| >= 1 && forall i | 0 <= i < |parts| :: '/' !in parts[i]
    ensures Split(Join(parts), '/') == parts
    decreases |parts|
  {
    if |parts| == 1 {
      SplitPlain(parts[0], '/');
      assert parts == [parts[0]];
    } else {
      SplitJoin(parts[1..]);
      SplitCons(parts[0], Join(parts[1..]));
      assert parts == [parts[0]] + parts[1..];
    }
  }

  lemma {:induction false} JoinConcat(parts: seq<string>, i: nat)
    requires 1 <= i < |parts|
    ensures Join(parts) == Join(parts[..i]) + "/" + Join(parts[i..])
    decreases |parts|
  {
    if i == 1 {
      assert parts[..1] == [parts[0]];
    } else {
      JoinConcat(parts[1..], i - 1);
      assert parts[1..][..i - 1] == parts[..i][1..];
      assert parts[1..][i - 1..] == parts[i..];
      assert parts[..i][0] == parts[0];
    }
  }

  // ---- whole-segment prefixes ----

  /** `k` is what is left of `path` after dropping one or more whole segments from its end. */
  predicate ProperPrefix(k: string, path: string) {
    k + "/" <= path
  }

  predicate SegmentPrefix(k: string, path: string) {
    k == path || ProperPrefix(k, path)
  }

  lemma PrefixOfSegments(path: string, i: nat)
    requires 1 <= i < |Split(path, '/')|
    ensures ProperPrefix(Join(Split(path, '/')[..i]), path)
    ensures Split(Join(Split(path, '/')[..i]), '/') == Split(path, '/')[..i]
  {
    JoinSplit(path);
    JoinConcat(Split(path, '/'), i);
    SplitJoin(Split(path, '/')[..i]);
  }

  /** Every proper prefix is found by joining that many segments. */
  lemma SegmentsOfPrefix(path: string, k: string)
    requires ProperPrefix(k, path)
    ensures |Split(k, '/')| < |Split(path, '/')|
    ensures k == Join(Split(path, '/')[..|Split(k, '/')|])
  {
    var rest := path[|k| + 1..];
    assert path == k + "/" + rest;
    SplitConcat(k, rest);
    assert Split(path, '/')[..|Split(k, '/')|] == Split(k, '/');
    JoinSplit(k);
  }

  /** Of two prefixes of one path, the one with more segments is the longer. */
  lemma MoreSegmentsLonger(path: string, i: nat, j: nat)
    requires 1 <= i <= j < |Split(path, '/')|
    ensures |Join(Split(path, '/')[..i])| <= |Join(Split(path, '/')[..j])|
  {
    var parts := Split(path, '/')[..j];
    if i < j {
      JoinConcat(parts, i);
      assert parts[..i] == Split(path, '/')[..i];
    }
  }

  // ---- the lookup ----

  /** PUBLIC means no permission, JWT any login. */
  function Meaning(val: string): Option<string> {
    if val == "PUBLIC" then None else if val == "JWT" then Some("") else Some(val)
  }

  /** Registered proper prefixes the loop can reach: those of at least three parts, counting the empty
      one before the leading slash. */
  predicate Candidate(table: map<string, string>, path: string, k: string) {
    k in table && ProperPrefix(k, path) && |Split(k, '/')| >= 3
  }

  /** The longest candidate, or none. */
  ghost predicate IsLongest(table: map<string, string>, path: string, best: Option<string>) {
    match best
    case None => forall k :: !Candidate(table, path, k)
    case Some(b) => Candidate(table, path, b) && forall k | Candidate(table, path, k) :: |k| <= |b|
  }

  /** The path's own entry, else the entry of the longest candidate prefix of the path without its
      trailing slashes; `best` names whose entry it is. */
  ghost predicate Answers(table: map<string, string>, path: string, best: Option<string>, r: Option<string>) {
    && (if path in table then best == Some(path) else IsLongest(table, StripRight(path), best))
    && r == match best case None => None case Some(b) => Meaning(table[b])
  }

  /** _match_required_permission */
  method MatchRequiredPermission(table: map<string, string>, path: string)
    returns (r: Option<string>)
    ensures exists best :: Answers(table, path, best, r)
  {
    if path in table {
      r := Meaning(table[path]);
      assert Answers(table, path, Some(path), r);
      return;
    }
    var stripped := StripRight(path);
    var parts := Split(stripped, '/');
    var i := |parts| - 1;
    while i > 2
      invariant i < |parts|
      invariant forall j | 3 <= j < |parts| && i < j :: Join(parts[..j]) !in table
    {
      var prefix := Join(parts[..i]);
      if prefix in table {
        LongestFound(table, stripped, i);
        r := Meaning(table[prefix]);
        assert Answers(table, path, Some(prefix), r);
        return;
      }
      i := i - 1;
    }
    NoneFound(table, stripped);
    r := None;
    assert Answers(table, path, None, r);
  }

  lemma LongestFound(table: map<string, string>, path: string, i: nat)
    requires 3 <= i < |Split(path, '/')| && Join(Split(path, '/')[..i]) in table
    requires forall j | i < j < |Split(path, '/')| :: Join(Split(path, '/')[..j]) !in table
    ensures IsLongest(table, path, Some(Join(Split(path, '/')[..i])))
  {
    PrefixOfSegments(path, i);
    forall k | Candidate(table, path, k)
      ensures |k| <= |Join(Split(path, '/')[..i])|
    {
      SegmentsOfPrefix(path, k);
      MoreSegmentsLonger(path, |Split(k, '/')|, i);
    }
  }

  lemma NoneFound(table: map<string, string>, path: string)
    requires forall j | 3 <= j < |Split(path, '/')| :: Join(Split(path, '/')[..j]) !in table
    ensures IsLongest(table, path, None)
  {
    forall k
      ensures !Candidate(table, path, k)
    {
      if ProperPrefix(k, path) {
        SegmentsOfPrefix(path, k);
      }
    }
  }

  // ---- paths without a trailing slash ----

  predicate LongestRegistered(table: map<string, string>, path: string, k: string) {
    && k in table && SegmentPrefix(k, path)
    && forall other | other in table && SegmentPrefix(other, path) :: |other| <= |k|
  }

  lemma NothingToStrip(path: string)
    requires |path| == 0 || path[|path| - 1] != '/'
    ensures StripRight(path) == path
  {
  }

  /** For a path that does not end in a slash, and a table of paths of at least three parts, the answer
      is the entry of the longest registered whole-segment prefix, the path itself included, and it is
      nothing exactly when that entry is PUBLIC or no prefix is registered. */
  lemma AnswerIsLongestRegistered(table: map<string, string>, path: string, best: Option<string>, r: Option<string>)
    requires |path| == 0 || path[|path| - 1] != '/'
    requires forall key | key in table :: |Split(key, '/')| >= 3
    requires Answers(table, path, best, r)
    ensures match best
            case None => forall other | other in table :: !SegmentPrefix(other, path)
            case Some(key) => LongestRegistered(table, path, key) && r == Meaning(table[key])
    ensures r == None <==> best == None || table[best.value] == "PUBLIC"
  {
    NothingToStrip(path);
    if path !in table {
      assert forall k | k in table && SegmentPrefix(k, path) :: Candidate(table, path, k);
    }
  }

  // ---- trailing slashes ----

  function Slashes(n: nat): string {
    if n == 0 then "" else Slashes(n - 1) + "/"
  }

  lemma {:induction false} StripSlashes(path: string, n: nat)
    requires |path| == 0 || path[|path| - 1] != '/'
    ensures StripRight(path + Slashes(n)) == path
    decreases n
  {
    if n == 0 {
      assert path + "" == path;
    } else {
      var s := path + Slashes(n);
      assert s[..|s| - 1] == path + Slashes(n - 1);
      StripSlashes(path, n - 1);
    }
  }

  lemma LongestUnique(table: map<string, string>, path: string, a: Option<string>, b: Option<string>)
    requires IsLongest(table, path, a) && IsLongest(table, path, b)
    ensures a == b
  {
    if a.Some? && b.Some? {
      SamePrefix(a.value, b.value, path);
    }
  }

  /** Slashes added to a path hide its own entry and change nothing else: unless the longer path is registered
      itself, it is answered by the longest proper prefix, which is the answer to the path alone exactly as
      long as that is not registered. */
  lemma TrailingSlashes(table: map<string, string>, path: string, n: nat, slashed: Option<string>, r: Option<string>,
                        own: Option<string>, mine: Option<string>)
    requires |path| == 0 || path[|path| - 1] != '/'
    requires n >= 1 && path + Slashes(n) !in table
    requires Answers(table, path + Slashes(n), slashed, r) && Answers(table, path, own, mine)
    ensures slashed == own <==> path !in table
    ensures path !in table ==> r == mine
    ensures slashed.Some? ==> ProperPrefix(slashed.value, path)
    ensures forall k | Candidate(table, path, k) :: slashed.Some? && |k| <= |slashed.value|
  {
    StripSlashes(path, n);
    NothingToStrip(path);
    if path !in table {
      LongestUnique(table, path, slashed, own);
    }
  }

  // ---- who is refused ----

  /** _check_permission */
  method CheckPermission(permissions: seq<string>, required: string) returns (ok: bool)
    ensures ok <==> required == "" || "*" in permissions || required in permissions
  {
    if required == "" {
      return true;
    }
    if "*" in permissions {
      return true;
    }
    return required in permissions;
  }

  /** Steps 7 and 8 of dispatch, for a user who is logged in. */
  method Admit(table: map<string, string>, path: string, permissions: seq<string>) returns (ok: bool)
    ensures exists best :: exists required ::
              Answers(table, path, best, required) && ok == !Refused(table, best, permissions)
  {
    var required := MatchRequiredPermission(table, path);
    ghost var best :| Answers(table, path, best, required);
    ok := true;
    if required.Some? {
      ok := CheckPermission(permissions, required.value);
    }
    assert ok == !Refused(table, best, permissions);
  }

  /** The entry found asks for a permission code that the user does not have. */
  predicate Refused(table: map<string, string>, best: Option<string>, permissions: seq<string>) {
    && best.Some? && best.value in table
    && table[best.value] !in ["PUBLIC", "JWT", ""]
    && "*" !in permissions && table[best.value] !in permissions
  }

  /** On a path without a trailing slash a logged-in user is refused if and only if the longest
      registered prefix names a permission code that the user lacks; so entries for shorter prefixes
      never matter, and granting a permission never refuses anyone. */
  lemma RefusedExactly(table: map<string, string>, path: string, best: Option<string>, r: Option<string>,
                       permissions: seq<string>, more: seq<string>)
    requires |path| == 0 || path[|path| - 1] != '/'
    requires forall key | key in table :: |Split(key, '/')| >= 3
    requires Answers(table, path, best, r)
    ensures Refused(table, best, permissions) <==>
            exists key :: LongestRegistered(table, path, key) && table[key] !in ["PUBLIC", "JWT", ""]
                          && "*" !in permissions && table[key] !in permissions
    ensures Refused(table, best, permissions + more) ==> Refused(table, best, permissions)
  {
    AnswerIsLongestRegistered(table, path, best, r);
    if best.Some? {
      forall key | LongestRegistered(table, path, key)
        ensures key == best.value
      {
        SamePrefix(key, best.value, path);
      }
    }
  }

  /** Two whole-segment prefixes of one path with the same length are the same. */
  lemma SamePrefix(a: string, b: string, path: string)
    requires SegmentPrefix(a, path) && SegmentPrefix(b, path) && |a| == |b|
    ensures a == b
  {
    PrefixIsTake(a, path);
    PrefixIsTake(b, path);
  }

  lemma PrefixIsTake(a: string, path: string)
    requires SegmentPrefix(a, path)
    ensures |a| <= |path| && a == path[..|a|]
  {
    if a != path {
      assert a == (a + "/")[..|a|];
    }
  }
}
