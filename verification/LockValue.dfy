/** The text stored under a lock key, `owner:stamp`, and the three ways the code reads it back. */
module LockValue {
  import opened Text
  import opened Wrappers

  function Render(owner: string, stamp: string): string {
    owner + ":" + stamp
  }

  /** The release script: the value starts with the owner, and a colon follows. */
  predicate ReleaseTest(val: string, owner: string) {
    owner <= val && |owner| < |val| && val[|owner|] == ':'
  }

  /** The takeover branch of the acquire script: everything after the first colon. */
  function StampText(val: string): Option<string> {
    if Find(val, ':') < |val| then Some(val[Find(val, ':') + 1..]) else None
  }

  /** The renewal unpacks exactly two parts; any other count raises and means "not renewed". */
  function ParsedOwner(val: string): Option<string> {
    if |Split(val, ':')| == 2 then Some(Split(val, ':')[0]) else None
  }

  /** A name that the release script takes for the holder's: with a colon it is a prefix of the
      holder's name with a colon. */
  predicate NameMatches(holder: string, owner: string) {
    owner + ":" <= holder + ":"
  }

  /** A name that the readers of the value can tell from the stamp. */
  predicate Readable(holder: string) {
    ':' !in holder
  }

  lemma RenderPrefix(holder: string, stamp: string)
    ensures Render(holder, stamp)[..|holder| + 1] == holder + ":"
    ensures Render(holder, stamp)[|holder| + 1..] == stamp
  {
  }

  lemma PrefixWithColon(val: string, owner: string)
    requires |owner| < |val|
    ensures ReleaseTest(val, owner) <==> val[..|owner| + 1] == owner + ":"
  {
    var n := |owner|;
    if ReleaseTest(val, owner) {
      assert val[..n + 1] == val[..n] + [val[n]];
    }
    if val[..n + 1] == owner + ":" {
      assert val[..n] == val[..n + 1][..n] == owner;
      assert val[n] == val[..n + 1][n];
    }
  }

  /** Which callers the release script lets delete a lock, whatever the holder's name. */
  lemma ReleaseTestMeaning(holder: string, stamp: string, owner: string)
    requires ':' !in stamp
    ensures ReleaseTest(Render(holder, stamp), owner) <==> NameMatches(holder, owner)
  {
    var val := Render(holder, stamp);
    var n := |owner|;
    RenderPrefix(holder, stamp);
    if n < |val| {
      PrefixWithColon(val, owner);
    }
    if n <= |holder| {
      assert val[..n + 1] == (holder + ":")[..n + 1];
    } else if n < |val| {
      assert val[n] == stamp[n - |holder| - 1];
      assert val[n] in stamp;
    }
  }

  /** A name without a colon is matched by itself alone. */
  lemma PlainNameMatches(holder: string, owner: string)
    requires Readable(holder)
    ensures NameMatches(holder, owner) <==> owner == holder
  {
    var n := |owner|;
    if NameMatches(holder, owner) {
      assert (holder + ":")[n] == (owner + ":")[n] == ':';
      assert forall k | 0 <= k < |holder| :: (holder + ":")[k] == holder[k] && holder[k] in holder;
      assert owner == (owner + ":")[..n] == (holder + ":")[..n];
      assert (holder + ":")[..|holder|] == holder;
    }
  }

  lemma TakeThroughColon(s: string, i: nat)
    requires i < |s| && s[i] == ':'
    ensures s[..i] + ":" == s[..i + 1]
  {
  }

  lemma TakeIsPrefix(s: string, more: string, i: nat)
    requires i <= |s|
    ensures s[..i] <= s + more
  {
  }

  /** A name with a colon is matched by its part before the first colon as well. */
  lemma ColonNameMatches(holder: string)
    requires !Readable(holder)
    ensures Find(holder, ':') < |holder| && NameMatches(holder, holder[..Find(holder, ':')])
  {
    FindIn(holder, ':');
    var i := Find(holder, ':');
    TakeThroughColon(holder, i);
    TakeIsPrefix(holder, ":", i + 1);
  }

  /** Only the holder itself can release the lock, if and only if its name has no colon. */
  lemma OnlyHolderReleases(holder: string, stamp: string)
    requires ':' !in stamp
    ensures (forall owner :: ReleaseTest(Render(holder, stamp), owner) <==> owner == holder)
            <==> Readable(holder)
  {
    if Readable(holder) {
      forall owner
        ensures ReleaseTest(Render(holder, stamp), owner) <==> owner == holder
      {
        ReleaseTestMeaning(holder, stamp, owner);
        PlainNameMatches(holder, owner);
      }
    } else {
      ColonNameMatches(holder);
      var short := holder[..Find(holder, ':')];
      ReleaseTestMeaning(holder, stamp, short);
      assert short != holder;
    }
  }

  lemma SplitAtColon(before: string, rest: string)
    requires ':' !in before
    ensures Find(Render(before, rest), ':') == |before|
    ensures Split(Render(before, rest), ':') == [before] + Split(rest, ':')
    ensures StampText(Render(before, rest)) == Some(rest)
  {
    var val := Render(before, rest);
    assert val[..|before|] == before;
    FindFirst(val, ':', |before|);
    RenderPrefix(before, rest);
  }

  lemma SplitSize(s: string)
    requires ':' in s
    ensures |Split(s, ':')| >= 2
  {
    FindIn(s, ':');
  }

  lemma RenderNested(a: string, b: string, c: string)
    ensures Render(Render(a, b), c) == Render(a, Render(b, c))
  {
    assert a + ":" + b + ":" + c == a + ":" + (b + ":" + c);
  }

  lemma CutAtColon(s: string, i: nat)
    requires i < |s| && s[i] == ':'
    ensures Render(s[..i], s[i + 1..]) == s
  {
  }

  lemma RenderAtColon(holder: string, stamp: string, i: nat)
    requires i < |holder| && holder[i] == ':'
    ensures Render(holder, stamp) == Render(holder[..i], Render(holder[i + 1..], stamp))
  {
    CutAtColon(holder, i);
    RenderNested(holder[..i], holder[i + 1..], stamp);
  }

  lemma RenderHasColon(holder: string, stamp: string)
    ensures ':' in Render(holder, stamp)
  {
    assert Render(holder, stamp)[|holder|] == ':';
  }

  /** Renewal and takeover read the name and the stamp back if and only if the name has no colon. With a
      colon in it a renewal never succeeds, and what the takeover reads is not a number. */
  lemma ReadersAgree(holder: string, stamp: string)
    requires ':' !in stamp
    ensures ParsedOwner(Render(holder, stamp)) == if Readable(holder) then Some(holder) else None
    ensures StampText(Render(holder, stamp)).Some?
    ensures StampText(Render(holder, stamp)) == Some(stamp) <==> Readable(holder)
    ensures !Readable(holder) ==> ':' in StampText(Render(holder, stamp)).value
  {
    if Readable(holder) {
      SplitAtColon(holder, stamp);
      SplitPlain(stamp, ':');
    } else {
      FindIn(holder, ':');
      var i := Find(holder, ':');
      RenderAtColon(holder, stamp, i);
      var rest := Render(holder[i + 1..], stamp);
      SplitAtColon(holder[..i], rest);
      RenderHasColon(holder[i + 1..], stamp);
      SplitSize(rest);
    }
  }
}
