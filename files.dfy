/** The part of the file system the writers touch: temporary files they stage their output in,
    and the final names they publish under. Every call into the operating system is fallible, and
    its outcome is given to the model rather than computed by it. */
module Files {
  import opened Records

  class FileSystem {
    /** Names of the temporary files that exist. */
    var staged: set<string>
    /** Final names that exist. */
    var published: set<string>

    constructor (staged: set<string>, published: set<string>)
      ensures this.staged == staged && this.published == published
    {
      this.staged := staged;
      this.published := published;
    }

    /** `ioutil.TempFile("", "atomic-")`: on success `created` names a new temporary file, one
        that did not exist, as its exclusive create guarantees. */
    method CreateTemp(created: Result<string>) returns (r: Result<string>)
      requires created.Ok? ==> created.value !in staged
      modifies this
      ensures r == created
      ensures staged == (if created.Ok? then old(staged) + {created.value} else old(staged))
      ensures published == old(published)
    {
      if created.Ok? {
        staged := staged + {created.value};
      }
      return created;
    }

    /** `os.Rename(from, to)`: moves the temporary file to its final name unless it fails. It
        can only succeed on a file that exists; on any other name it fails. */
    method Rename(from: string, to: string, failure: Option<Error>) returns (err: Option<Error>)
      requires failure.None? ==> from in staged
      modifies this
      ensures err == failure
      ensures staged == (if failure.None? then old(staged) - {from} else old(staged))
      ensures published == (if failure.None? then old(published) + {to} else old(published))
    {
      if failure.None? {
        staged := staged - {from};
        published := published + {to};
      }
      return failure;
    }

    /** `os.Remove(name)` of a temporary file, unless it fails. It can only succeed on a file
        that exists; on any other name it fails. */
    method Remove(name: string, failure: Option<Error>) returns (err: Option<Error>)
      requires failure.None? ==> name in staged
      modifies this
      ensures err == failure
      ensures staged == (if failure.None? then old(staged) - {name} else old(staged))
      ensures published == old(published)
    {
      if failure.None? {
        staged := staged - {name};
      }
      return failure;
    }
  }

  /** What the steps before the rename leave in a writer's `cerr`: the last of their errors. */
  function StepsError(steps: seq<Option<Error>>): (err: Option<Error>)
    ensures err.None? <==> forall i :: 0 <= i < |steps| ==> steps[i].None?
    ensures err.Some? ==> exists i :: 0 <= i < |steps| && steps[i] == err
  {
    LastErrorSpec(steps);
    LastError(steps)
  }

  /** The outcomes of closing one staged file: the steps before the rename, in order, and the
      rename. */
  datatype CloseSteps = CloseSteps(before: seq<Option<Error>>, rename: Option<Error>)

  /** Whether closing the file moves it to its final name: only when every step before the
      rename succeeded, and the rename itself did. */
  predicate Commits(s: CloseSteps)
  {
    StepsError(s.before).None? && s.rename.None?
  }

  /** The error closing one file reports: the last failing step before the rename, which then is
      not attempted, or else the rename's. */
  function CloseError(s: CloseSteps): (err: Option<Error>)
    ensures err.None? <==> Commits(s)
    ensures err.Some? ==> err == s.rename || exists i :: 0 <= i < |s.before| && s.before[i] == err
  {
    if StepsError(s.before).Some? then StepsError(s.before) else s.rename
  }

  /** The outcomes of discarding one staged file: closing it and removing it. */
  datatype CancelSteps = CancelSteps(close: Option<Error>, remove: Option<Error>)

  /** The error discarding one file reports: the removal's, or else the close's. */
  function CancelError(s: CancelSteps): (err: Option<Error>)
    ensures err.None? <==> s.close.None? && s.remove.None?
    ensures err.Some? ==> err == s.close || err == s.remove
  {
    if s.remove.Some? then s.remove else s.close
  }

  /** What a writer keeps per record type: the final name, the temporary file the output is
      staged in, and what has been handed to the encoder for that file, in order. */
  datatype Builder<C> = Builder(filename: string, temp: string, written: seq<C>)

  /** The final names closing the builders of `ts` publishes: those whose steps all succeed. */
  ghost function Committed<K, C>(bs: map<K, Builder<C>>, ts: set<K>, steps: map<K, CloseSteps>): set<string>
    requires ts <= bs.Keys <= steps.Keys
  {
    set t | t in ts && Commits(steps[t]) :: bs[t].filename
  }

  /** The temporary files closing the same builders moves away. */
  ghost function Moved<K, C>(bs: map<K, Builder<C>>, ts: set<K>, steps: map<K, CloseSteps>): set<string>
    requires ts <= bs.Keys <= steps.Keys
  {
    set t | t in ts && Commits(steps[t]) :: bs[t].temp
  }

  /** The temporary files discarding the builders of `ts` removes: those whose removal succeeds. */
  ghost function Removed<K, C>(bs: map<K, Builder<C>>, ts: set<K>, steps: map<K, CancelSteps>): set<string>
    requires ts <= bs.Keys <= steps.Keys
  {
    set t | t in ts && steps[t].remove.None? :: bs[t].temp
  }

  /** The given close outcomes agree with the staged files: a rename succeeds only on a file
      that exists, so every builder of `ts` that commits has its temporary file staged, and no
      two committing builders share one. */
  ghost predicate RenamesStaged<K, C>(bs: map<K, Builder<C>>, ts: set<K>, steps: map<K, CloseSteps>, staged: set<string>)
    requires ts <= bs.Keys <= steps.Keys
  {
    && (forall t :: t in ts && Commits(steps[t]) ==> bs[t].temp in staged)
    && (forall t, u :: t in ts && u in ts && t != u && Commits(steps[t]) && Commits(steps[u]) ==> bs[t].temp != bs[u].temp)
  }

  /** The given cancel outcomes agree with the staged files: a removal succeeds only on a file
      that exists, so every builder of `ts` whose removal succeeds has its temporary file staged,
      and no two such builders share one. */
  ghost predicate RemovesStaged<K, C>(bs: map<K, Builder<C>>, ts: set<K>, steps: map<K, CancelSteps>, staged: set<string>)
    requires ts <= bs.Keys <= steps.Keys
  {
    && (forall t :: t in ts && steps[t].remove.None? ==> bs[t].temp in staged)
    && (forall t, u :: t in ts && u in ts && t != u && steps[t].remove.None? && steps[u].remove.None? ==> bs[t].temp != bs[u].temp)
  }

  /** Closing one builder of `todo` leaves the others' outcomes in agreement with the staged
      files: its rename takes away only its own temporary file, which no other committing
      builder shares. */
  lemma RenamesStagedStep<K, C>(bs: map<K, Builder<C>>, todo: set<K>, t: K, steps: map<K, CloseSteps>,
                                staged: set<string>, staged': set<string>)
    requires todo <= bs.Keys <= steps.Keys && t in todo
    requires RenamesStaged(bs, todo, steps, staged)
    requires staged' == staged - (if Commits(steps[t]) then {bs[t].temp} else {})
    ensures RenamesStaged(bs, todo - {t}, steps, staged')
  {
    forall u | u in todo - {t} && Commits(steps[u]) ensures bs[u].temp in staged' {
      assert bs[u].temp in staged;
      if Commits(steps[t]) { assert bs[u].temp != bs[t].temp; }
    }
  }

  /** Discarding one builder of `todo` leaves the others' outcomes in agreement with the staged
      files. */
  lemma RemovesStagedStep<K, C>(bs: map<K, Builder<C>>, todo: set<K>, t: K, steps: map<K, CancelSteps>,
                                staged: set<string>, staged': set<string>)
    requires todo <= bs.Keys <= steps.Keys && t in todo
    requires RemovesStaged(bs, todo, steps, staged)
    requires staged' == staged - (if steps[t].remove.None? then {bs[t].temp} else {})
    ensures RemovesStaged(bs, todo - {t}, steps, staged')
  {
    forall u | u in todo - {t} && steps[u].remove.None? ensures bs[u].temp in staged' {
      assert bs[u].temp in staged;
      if steps[t].remove.None? { assert bs[u].temp != bs[t].temp; }
    }
  }

  /** Where the loop of a writer's `Close` stands once the builders outside `todo` are closed:
      their committed final names are published and their temporary files moved, the outcomes
      of the others still agree with the staged files, and `err` is nil iff every closed builder
      committed, and otherwise the error of one that did not. */
  ghost predicate CloseProgress<K, C>(bs: map<K, Builder<C>>, todo: set<K>, steps: map<K, CloseSteps>, err: Option<Error>,
                                      pub0: set<string>, st0: set<string>, pub: set<string>, st: set<string>)
    requires bs.Keys <= steps.Keys
  {
    && todo <= bs.Keys
    && pub == pub0 + Committed(bs, bs.Keys - todo, steps)
    && st == st0 - Moved(bs, bs.Keys - todo, steps)
    && RenamesStaged(bs, todo, steps, st)
    && (err.None? <==> forall t :: t in bs.Keys - todo ==> Commits(steps[t]))
    && (err.Some? ==> exists t :: t in bs.Keys - todo && err == CloseError(steps[t]))
  }

  /** Closing one more builder, and keeping its error when it fails, advances the loop. */
  lemma CloseProgressStep<K, C>(bs: map<K, Builder<C>>, todo: set<K>, t: K, steps: map<K, CloseSteps>, err: Option<Error>,
                                pub0: set<string>, st0: set<string>, pub: set<string>, st: set<string>,
                                pub': set<string>, st': set<string>)
    requires bs.Keys <= steps.Keys && t in todo
    requires CloseProgress(bs, todo, steps, err, pub0, st0, pub, st)
    requires pub' == pub + (if Commits(steps[t]) then {bs[t].filename} else {})
    requires st' == st - (if Commits(steps[t]) then {bs[t].temp} else {})
    ensures var cerr := CloseError(steps[t]);
      CloseProgress(bs, todo - {t}, steps, if cerr.Some? then cerr else err, pub0, st0, pub', st')
  {
    var done := bs.Keys - todo;
    CloseStep(bs, done, t, steps, pub0, pub, pub', st0, st, st');
    RenamesStagedStep(bs, todo, t, steps, st, st');
    RemoveOne(bs.Keys, todo, t);
  }

  /** Closing one more builder moves its names exactly when its steps all succeed. */
  lemma CloseStep<K, C>(bs: map<K, Builder<C>>, done: set<K>, t: K, steps: map<K, CloseSteps>,
                        pub0: set<string>, pub: set<string>, pub': set<string>,
                        st0: set<string>, st: set<string>, st': set<string>)
    requires done <= bs.Keys <= steps.Keys && t in bs
    requires pub == pub0 + Committed(bs, done, steps) && st == st0 - Moved(bs, done, steps)
    requires pub' == pub + (if Commits(steps[t]) then {bs[t].filename} else {})
    requires st' == st - (if Commits(steps[t]) then {bs[t].temp} else {})
    ensures pub' == pub0 + Committed(bs, done + {t}, steps) && st' == st0 - Moved(bs, done + {t}, steps)
  {
    assert Committed(bs, done + {t}, steps) == Committed(bs, done, steps) + (if Commits(steps[t]) then {bs[t].filename} else {});
    assert Moved(bs, done + {t}, steps) == Moved(bs, done, steps) + (if Commits(steps[t]) then {bs[t].temp} else {});
  }

  /** Discarding one more builder removes its temporary file exactly when the removal succeeds. */
  lemma CancelStep<K, C>(bs: map<K, Builder<C>>, done: set<K>, t: K, steps: map<K, CancelSteps>,
                         st0: set<string>, st: set<string>, st': set<string>)
    requires done <= bs.Keys <= steps.Keys && t in bs
    requires st == st0 - Removed(bs, done, steps)
    requires st' == st - (if steps[t].remove.None? then {bs[t].temp} else {})
    ensures st' == st0 - Removed(bs, done + {t}, steps)
  {
    assert Removed(bs, done + {t}, steps) == Removed(bs, done, steps) + (if steps[t].remove.None? then {bs[t].temp} else {});
  }

  /** Taking one more element out of the pending part of `all` adds it to the finished part. */
  lemma RemoveOne<T>(all: set<T>, todo: set<T>, t: T)
    requires t in todo && todo <= all
    ensures all - (todo - {t}) == (all - todo) + {t}
  {
  }
}
