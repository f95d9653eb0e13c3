/** How `createWindow` picks a name no other window has: the requested name (or
    "窗口 " followed by the number of open windows), and while that is taken,
    the requested name (or "窗口 " alone) followed by ` (1)`, ` (2)`, ... */
module WindowNames {
  import opened Strings

  /** "窗口 " ("Window " followed by a space). */
  const DefaultPrefix: string := "\U{7A97}\U{53E3} "

  /** The first name tried: the imported name when there is a non-empty one, otherwise the
      default prefix followed by the number of open windows. */
  function InitialName(requested: string, count: nat): string
  {
    if requested != [] then requested else DefaultPrefix + NatToString(count)
  }

  /** What the numbered suffixes are appended to: the requested name, otherwise the bare
      default prefix (without the count). */
  function BaseName(requested: string): string
  {
    if requested != [] then requested else DefaultPrefix
  }

  /** The name tried for suffix counter `counter`: `base + ' (' + counter + ')'`. */
  function Candidate(base: string, counter: nat): string
  {
    base + " (" + NatToString(counter) + ")"
  }

  /** Different counters give different candidates. */
  lemma CandidateInjective(base: string, a: nat, b: nat)
    requires Candidate(base, a) == Candidate(base, b)
    ensures a == b
  {
    var ca, cb := Candidate(base, a), Candidate(base, b);
    assert ca[|base| + 2..|ca| - 1] == NatToString(a);
    assert cb[|base| + 2..|cb| - 1] == NatToString(b);
    NatToStringInjective(a, b);
  }

  /** The first name tried is never one of the numbered candidates. */
  lemma InitialNotCandidate(requested: string, count: nat, counter: nat)
    ensures InitialName(requested, count) != Candidate(BaseName(requested), counter)
  {
    if requested == [] {
      var digits := NatToString(count);
      var initial, candidate := InitialName(requested, count), Candidate(DefaultPrefix, counter);
      assert initial[|DefaultPrefix|] == digits[0];
      assert candidate[|DefaultPrefix|] == ' ';
    }
  }

  /** `name` is what the loop settles on: not taken, and either the first name tried or
      the candidate with the smallest counter that is not taken. */
  ghost predicate IsFirstFreeName(taken: set<string>, requested: string, count: nat, name: string)
  {
    && name !in taken
    && (|| name == InitialName(requested, count)
        || (&& InitialName(requested, count) in taken
            && exists c :: c >= 1 && name == Candidate(BaseName(requested), c)
                 && forall c' :: 1 <= c' < c ==> Candidate(BaseName(requested), c') in taken))
  }

  /** At most one name is the first free one. */
  lemma FirstFreeNameUnique(taken: set<string>, requested: string, count: nat, a: string, b: string)
    requires IsFirstFreeName(taken, requested, count, a)
    requires IsFirstFreeName(taken, requested, count, b)
    ensures a == b
  {
    var base := BaseName(requested);
    if a != InitialName(requested, count) && b != InitialName(requested, count) {
      var ca :| ca >= 1 && a == Candidate(base, ca) && forall c' :: 1 <= c' < ca ==> Candidate(base, c') in taken;
      var cb :| cb >= 1 && b == Candidate(base, cb) && forall c' :: 1 <= c' < cb ==> Candidate(base, c') in taken;
      assert !(ca < cb) && !(cb < ca);
    }
  }

  /** The name-resolution loop of `createWindow`. It ends because the candidates found taken
      are pairwise distinct members of the finite set `taken`. */
  method ResolveName(taken: set<string>, requested: string, count: nat) returns (name: string)
    ensures IsFirstFreeName(taken, requested, count, name)
  {
    var base := BaseName(requested);
    name := InitialName(requested, count);
    var counter: nat := 1;
    ghost var seen: set<string> := {};
    while name in taken
      invariant counter >= 1
      invariant seen <= taken && name !in seen
      invariant counter == 1 ==> name == InitialName(requested, count)
      invariant counter > 1 ==> name == Candidate(base, counter - 1) && InitialName(requested, count) in taken
      invariant forall c :: 1 <= c < counter - 1 ==> Candidate(base, c) in taken
      invariant forall c :: c >= counter ==> Candidate(base, c) !in seen
      decreases taken - seen
    {
      forall c | c >= counter + 1 ensures Candidate(base, c) != name {
        if counter == 1 {
          InitialNotCandidate(requested, count, c);
        } else if Candidate(base, c) == name {
          CandidateInjective(base, c, counter - 1);
        }
      }
      if counter == 1 {
        InitialNotCandidate(requested, count, counter);
      } else if Candidate(base, counter) == name {
        CandidateInjective(base, counter, counter - 1);
      }
      seen := seen + {name};
      name := Candidate(base, counter);
      counter := counter + 1;
    }
    assert counter > 1 ==> Candidate(base, counter - 1) == name;
  }
}
