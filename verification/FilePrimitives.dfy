/**
 * internal/configfile: one file that is replaced or retired by a rename.
 *
 * A rename is visible at once but durable only after a sync.  A `Cell` keeps
 * both views of one file name: what a reader sees now, and every value that a
 * power loss may leave behind.  A process crash keeps `now`; a power loss
 * keeps any element of `maybe`.
 */
module FilePrimitives {
  import opened Common

  datatype Cell<T(==)> = Cell(now: Option<T>, maybe: set<Option<T>>)

  predicate CellOk<T(==)>(c: Cell<T>) {
    c.now in c.maybe
  }

  predicate Durable<T(==)>(c: Cell<T>) {
    c.maybe == {c.now}
  }

  function Renamed<T(==)>(c: Cell<T>, v: Option<T>): Cell<T> {
    Cell(v, c.maybe + {v})
  }

  function Settled<T(==)>(c: Cell<T>): Cell<T> {
    Cell(c.now, {c.now})
  }

  /** The three answers of a replacement: nil, an error after the rename, any other error. */
  datatype WriteResult = Nil | PostCommitError | OtherError

  /**
   * What one replacement by `v` may do.  `steps` lists the states the file
   * passed through, so that a caller can account for a stop after each.
   */
  ghost predicate Replaces<T>(c: Cell<T>, v: Option<T>, r: WriteResult, steps: seq<Cell<T>>) {
    match r
    case Nil => steps == [Renamed(c, v), Settled(Renamed(c, v))]
    case PostCommitError => steps == [Renamed(c, v)] || steps == [Renamed(c, v), Settled(Renamed(c, v))]
    case OtherError => steps == []
  }

  /** What retiring the file may do: an absent file is only synced. */
  ghost predicate Retires<T>(c: Cell<T>, r: WriteResult, steps: seq<Cell<T>>) {
    if c.now.None? then
      if r == Nil then steps == [Settled(c)] else steps == []
    else
      match r
      case Nil => steps == [Renamed(c, None), Settled(Renamed(c, None))]
      case PostCommitError => steps == [Renamed(c, None)]
      case OtherError => steps == []
  }

  ghost function After<T>(c: Cell<T>, steps: seq<Cell<T>>): Cell<T> {
    if steps == [] then c else steps[|steps| - 1]
  }

  /** A process crash keeps what is visible; a power loss keeps one possible value. */
  ghost predicate Crash<T>(before: Cell<T>, after: Cell<T>) {
    after == before || (after.now in before.maybe && Durable(after))
  }

  /** One removal that ran for `stop` of its steps, and the crash (if any) that followed. */
  datatype RemovalTry<T(==)> = RemovalTry(r: WriteResult, steps: seq<Cell<T>>, stop: nat, after: Cell<T>)

  ghost predicate TriesFrom<T>(c: Cell<T>, tries: seq<RemovalTry<T>>)
    decreases |tries|
  {
    tries == [] ||
    (var t := tries[0];
     && Retires(c, t.r, t.steps)
     && t.stop <= |t.steps|
     && Crash(After(c, t.steps[..t.stop]), t.after)
     && TriesFrom(t.after, tries[1..]))
  }

  /**
   * However many removals were cut short, failed after the rename, or lost
   * their rename in a power failure: once one of them runs to its end and
   * returns nil the file is durably absent, and until then nothing but an old
   * value or absence can be found under the name.
   */
  lemma {:induction false} RemovalsConverge<T>(c: Cell<T>, tries: seq<RemovalTry<T>>)
    requires CellOk(c) && tries != [] && TriesFrom(c, tries)
    ensures
      var last := tries[|tries| - 1];
      && CellOk(last.after)
      && last.after.maybe <= c.maybe + {None}
      && (last.r == Nil && last.stop == |last.steps| ==> last.after == Cell(None, {None}))
    decreases |tries|
  {
    var t := tries[0];
    var reached := After(c, t.steps[..t.stop]);
    assert t.steps[..|t.steps|] == t.steps;
    if t.stop == 0 {
      assert t.steps[..0] == [];
    } else if t.stop == 1 {
      assert t.steps[..1] == [t.steps[0]];
    }
    assert CellOk(reached) && reached.maybe <= c.maybe + {None};
    if |tries| > 1 {
      RemovalsConverge(t.after, tries[1..]);
    }
  }

  /** A configuration target together with the retirement tombstone beside it. */
  class Target<T(==)> {
    var file: Option<T>
    var tombstone: Option<T>
    // Both names are links to one file; only something outside the program makes that so.
    var linked: bool
    // What a power loss may leave; bookkeeping that no branch of the program looks at.
    var maybe: set<Option<T>>
    // No operating-system call on this file fails.  The program cannot see this.
    const healthy: bool

    function State(): (c: Cell<T>)
      reads this
    {
      Cell(file, maybe)
    }

    ghost predicate Valid()
      reads this
    {
      file in maybe
    }

    constructor (initial: Option<T>, healthy: bool)
      ensures Valid() && State() == Cell(initial, {initial})
      ensures tombstone == None && !linked && this.healthy == healthy
    {
      this.healthy := healthy;
      file, tombstone, linked := initial, None, false;
      maybe := {initial};
    }

    /** A call this model does not look inside (validate, stat, write a temporary file, ...). */
    method SystemCall() returns (ok: bool)
      ensures healthy ==> ok
    {
      ok := *;
      if healthy {
        ok := true;
      }
    }

    method Rename(v: Option<T>) returns (ok: bool)
      requires Valid()
      modifies this
      ensures Valid()
      ensures healthy ==> ok
      ensures State() == if ok then Renamed(old(State()), v) else old(State())
      ensures tombstone == old(tombstone) && (if ok then !linked else linked == old(linked))
    {
      ok := SystemCall();
      if ok {
        file, linked := v, false;
        maybe := maybe + {v};
      }
    }

    method Sync() returns (ok: bool)
      requires Valid()
      modifies this`maybe
      ensures Valid()
      ensures healthy ==> ok
      ensures State() == if ok then Settled(old(State())) else old(State())
    {
      ok := SystemCall();
      if ok {
        maybe := {file};
      }
    }

    /** AtomicWritePrivate, and AtomicWrite, which differs only in the metadata it keeps. */
    method AtomicWritePrivate(v: T) returns (r: WriteResult, steps: seq<Cell<T>>)
      requires Valid()
      modifies this
      ensures Valid()
      ensures Replaces(old(State()), Some(v), r, steps) && State() == After(old(State()), steps)
      ensures healthy ==> r == Nil
      ensures tombstone == old(tombstone) && (r == OtherError ==> linked == old(linked))
      ensures r != OtherError ==> !linked
    {
      steps := [];
      var prepared := SystemCall();
      if !prepared { return OtherError, steps; }
      var written := SystemCall();
      if !written { return OtherError, steps; }
      var renamed := Rename(Some(v));
      if !renamed { return OtherError, steps; }
      steps := [State()];
      var synced := Sync();
      if !synced { return PostCommitError, steps; }
      steps := steps + [State()];
      var valid := SystemCall();
      if !valid { return PostCommitError, steps; }
      r := Nil;
    }

    /** RemovePrivateFile: rename to the tombstone, sync, then drop the tombstone if that works. */
    method RemovePrivateFile() returns (r: WriteResult, steps: seq<Cell<T>>)
      requires Valid()
      modifies this
      ensures Valid()
      ensures Retires(old(State()), r, steps) && State() == After(old(State()), steps)
      ensures r == Nil ==> file == None && maybe == {None}
      ensures healthy && (file.None? || !old(linked)) ==> r == Nil
      ensures old(file).Some? && old(linked) ==> r == OtherError
      ensures r != OtherError && old(file).Some? ==> !linked
      ensures r == OtherError ==> linked == old(linked)
    {
      steps := [];
      if file.None? {
        var tombstoneExists := tombstone.Some?;
        if tombstoneExists {
          var safe := SystemCall();
          if !safe { return OtherError, steps; }
        }
        // An earlier retirement may be visible but not durable: sync before
        // the tombstone, the only other copy, goes away.
        var settled := Sync();
        if !settled {
          return if tombstoneExists then PostCommitError else OtherError, steps;
        }
        steps := [State()];
        CleanupTombstone();
        return Nil, steps;
      }
      var valid := SystemCall();
      if !valid { return OtherError, steps; }
      if tombstone.Some? {
        var safe := SystemCall();
        if !safe { return OtherError, steps; }
      }
      if linked {
        return OtherError, steps;
      }
      var retired := file;
      var moved := Rename(None);
      if !moved { return OtherError, steps; }
      tombstone := retired;
      steps := [State()];
      var synced := Sync();
      if !synced { return PostCommitError, steps; }
      steps := steps + [State()];
      CleanupTombstone();
      r := Nil;
    }

    method CleanupTombstone()
      requires Valid()
      modifies this`tombstone
      ensures Valid()
      ensures tombstone == old(tombstone) || tombstone == None
    {
      var removed := SystemCall();
      if removed {
        tombstone := None;
      }
    }

    /** BeginPrivateReplace: reserves room for a replacement of up to `reserve` bytes, or changes nothing. */
    method BeginPrivateReplace(reserve: int) returns (p: Option<PrivateReplace<T>>)
      requires Valid()
      ensures p.Some? ==>
        && fresh(p.value) && p.value.Valid() && p.value.target == this
        && p.value.reserve == reserve && p.value.open && !p.value.committed
      ensures reserve <= 0 ==> p.None?
      ensures healthy && reserve > 0 ==> p.Some?
    {
      if reserve <= 0 { return None; }
      var directory := SystemCall();
      if !directory { return None; }
      if file.Some? {
        var valid := SystemCall();
        if !valid { return None; }
      }
      var created := SystemCall();
      if !created { return None; }
      var replacement := new PrivateReplace.Begin(this, reserve);
      var reserved := SystemCall();
      if reserved {
        reserved := SystemCall();      // sync
      }
      if reserved {
        reserved := SystemCall();      // seek
      }
      if reserved {
        reserved := SystemCall();      // validate
      }
      if !reserved {
        replacement.Abort();
        return None;
      }
      p := Some(replacement);
    }

    /** Power fails: the name keeps one possible value, and the tombstone anything at all. */
    method PowerLoss(survivor: Option<T>, leftover: Option<T>)
      requires Valid() && survivor in maybe
      modifies this
      ensures Valid() && State() == Cell(survivor, {survivor}) && linked == old(linked)
    {
      file, tombstone := survivor, leftover;
      maybe := {survivor};
    }
  }

  /** A prepared private replacement: reserved before a remote one-time rotation, used at most once. */
  class PrivateReplace<T(==)> {
    const target: Target<T>
    const reserve: nat
    var open: bool
    var committed: bool

    ghost predicate Valid()
      reads this
    {
      committed ==> !open
    }

    /** What BeginPrivateReplace starts from once the temporary file is there. */
    constructor Begin(target: Target<T>, reserve: nat)
      ensures Valid() && this.target == target && this.reserve == reserve && open && !committed
    {
      this.target, this.reserve, open, committed := target, reserve, true, false;
    }

    method Commit(v: T, size: nat) returns (r: WriteResult, steps: seq<Cell<T>>)
      requires Valid() && target.Valid()
      modifies this, target
      ensures Valid() && target.Valid()
      ensures Replaces(old(target.State()), Some(v), r, steps) && target.State() == After(old(target.State()), steps)
      ensures committed == (old(committed) || r != OtherError)
      ensures !old(open) || size > reserve ==> r == OtherError
      ensures target.healthy && old(open) && size <= reserve ==> r == Nil
      ensures target.tombstone == old(target.tombstone)
      ensures if r == OtherError then target.linked == old(target.linked) else !target.linked
    {
      steps := [];
      if !open || committed { return OtherError, steps; }
      if size > reserve { return OtherError, steps; }
      var verified := target.SystemCall();
      if !verified { return OtherError, steps; }
      var written := target.SystemCall();
      if !written { return OtherError, steps; }
      open := false;
      var closed := target.SystemCall();
      if !closed { return OtherError, steps; }
      var renamed := target.Rename(Some(v));
      if !renamed { return OtherError, steps; }
      committed := true;
      steps := [target.State()];
      // The three checks all run; their errors are joined.
      var cleaned := target.SystemCall();
      var synced := target.Sync();
      if synced {
        steps := steps + [target.State()];
      }
      var valid := target.SystemCall();
      r := if cleaned && synced && valid then Nil else PostCommitError;
    }

    method Abort()
      requires Valid()
      modifies this
      ensures Valid() && !open && committed == old(committed)
    {
      open := false;
    }
  }
}
