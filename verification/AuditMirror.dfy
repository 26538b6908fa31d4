/** The audit mirror of the control-plane guard: the trusted worker's traced SQL is replayed on an
    in-memory copy, and the postflight snapshot of the real database is compared with that copy. */
module AuditMirror {
  import opened Wrappers
  import opened Texts

  /** What the last commit left, and the uncommitted state of an open transaction. */
  datatype Database<T> = Database(committed: T, open: Option<T>)

  function Visible<T>(db: Database<T>): T {
    if db.open.Some? then db.open.value else db.committed
  }

  datatype Kind = Begin | Commit | Rollback | Write | Read

  /** A statement: its text, what SQLite takes it for, and its effect on the tables (`None` is an error). */
  datatype Statement<!T> = Statement(text: string, kind: Kind, effect: T -> Option<T>)

  /** One statement on one connection; an error leaves the database as it is. */
  function Execute<T>(db: Database<T>, st: Statement<T>): Option<Database<T>> {
    match st.kind
    case Begin => if db.open.None? then Some(db.(open := Some(db.committed))) else None
    case Commit => if db.open.Some? then Some(Database(db.open.value, None)) else None
    case Rollback => if db.open.Some? then Some(Database(db.committed, None)) else None
    case Read => Some(db)
    case Write =>
      match st.effect(Visible(db))
      case None => None
      case Some(t) => Some(if db.open.Some? then db.(open := Some(t)) else db.(committed := t))
  }

  /** The mirror runs through the driver, which begins a transaction before a bare write. */
  function MirrorExecute<T>(mirror: Database<T>, st: Statement<T>): Option<Database<T>> {
    if st.kind.Write? && mirror.open.None? then Execute(mirror.(open := Some(mirror.committed)), st)
    else Execute(mirror, st)
  }

  // ---- Which statements are replayed ----

  function Stripped(s: string): string {
    if s != [] && IsSpace(s[0]) then Stripped(s[1..]) else s
  }

  /** The characters up to the first blank. */
  function FirstWord(s: string): string {
    if s == [] || IsSpace(s[0]) then [] else [s[0]] + FirstWord(s[1..])
  }

  /** The filter of `record_statement`. */
  predicate Tracked(text: string) {
    var folded := LowerCase(Stripped(text));
    var keyword := FirstWord(folded);
    || (keyword in ["insert", "update", "delete", "replace"]
         && (Contains(folded, "operations") || Contains(folded, "events")))
    || keyword in ["begin", "commit", "rollback"]
  }

  // ---- The guard ----

  /** `digest` stands for SHA-256 of the canonical JSON; `fits` is the byte bound on a snapshot. */
  datatype Environment<!T> = Environment(digest: T -> nat, fits: T -> bool)

  ghost predicate CollisionFree<T(!new)>(env: Environment<T>) {
    forall a, b :: env.digest(a) == env.digest(b) ==> a == b
  }

  /** What a capture reports: everything that is not the audit database, and the audit digest. */
  datatype Critical<B> = Critical(base: B, audit: nat)

  /** `_AuditMutationGuard`: the mirror, the expected state and whether tracking failed. */
  datatype Guard<T, B> = Guard(operation: string, base: B, mirror: Database<T>, expected: Critical<B>, failed: bool)

  function Preflight<T, B>(env: Environment<T>, operation: string, base: B, tables: T): Guard<T, B> {
    Guard(operation, base, Database(tables, None), Critical(base, env.digest(tables)), false)
  }

  /** `record_statement` and `_refresh_expected_state`. */
  function Record<T, B>(env: Environment<T>, g: Guard<T, B>, st: Statement<T>): Guard<T, B> {
    if !Tracked(st.text) || g.failed then g
    else
      match MirrorExecute(g.mirror, st)
      case None => g.(failed := true)
      case Some(m) =>
        if !env.fits(Visible(m)) then g.(mirror := m, failed := true)
        else g.(mirror := m, expected := Critical(g.base, env.digest(Visible(m))))
  }

  /** `verified` of the postflight capture; the capture reads only what is committed. */
  predicate Verified<T, B(==)>(env: Environment<T>, g: Guard<T, B>, base: B, db: Database<T>) {
    !g.failed && Critical(base, env.digest(db.committed)) == g.expected
  }

  // ---- What happens between preflight and postflight ----

  /** The trusted worker issues a statement, or somebody else changes the committed tables. */
  datatype Event<!T> = Trusted(st: Statement<T>) | Foreign(tables: T)

  /** What a statement of the worker leaves behind, whether or not it fails. */
  function Settled<T>(db: Database<T>, st: Statement<T>): Database<T> {
    if Execute(db, st).Some? then Execute(db, st).value else db
  }

  /** A statement is traced before it runs; if it fails, the tables stay as they are. */
  function Play<T, B>(env: Environment<T>, g: Guard<T, B>, db: Database<T>, events: seq<Event<T>>)
    : (Guard<T, B>, Database<T>)
    decreases |events|
  {
    if events == [] then (g, db)
    else
      match events[0]
      case Foreign(t) => Play(env, g, db.(committed := t), events[1..])
      case Trusted(st) =>
        Play(env, Record(env, g, st), Settled(db, st), events[1..])
  }

  /** The traced statements, in order. */
  function Traced<T>(events: seq<Event<T>>): seq<Statement<T>>
    decreases |events|
  {
    if events == [] then []
    else if events[0].Trusted? && Tracked(events[0].st.text) then [events[0].st] + Traced(events[1..])
    else Traced(events[1..])
  }

  /** The statements applied one after the other, begin, commit and rollback included. */
  function Replay<T>(db: Database<T>, statements: seq<Statement<T>>): Option<Database<T>>
    decreases |statements|
  {
    if statements == [] then Some(db)
    else
      match MirrorExecute(db, statements[0])
      case None => None
      case Some(next) => Replay(next, statements[1..])
  }

  lemma {:induction false} PlayReplays<T, B>(env: Environment<T>, g: Guard<T, B>, db: Database<T>,
                                             events: seq<Event<T>>)
    requires !g.failed && g.expected == Critical(g.base, env.digest(Visible(g.mirror)))
    ensures var (last, _) := Play(env, g, db, events);
            && last.base == g.base && last.operation == g.operation
            && (!last.failed ==> Replay(g.mirror, Traced(events)) == Some(last.mirror)
                                 && last.expected == Critical(g.base, env.digest(Visible(last.mirror))))
    decreases |events|
  {
    if events != [] {
      match events[0]
      case Foreign(t) => PlayReplays(env, g, db.(committed := t), events[1..]);
      case Trusted(st) =>
        var next := Record(env, g, st);
        var after := Settled(db, st);
        if next.failed {
          PlayStaysFailed(env, next, after, events[1..]);
        } else {
          PlayReplays(env, next, after, events[1..]);
        }
    }
  }

  lemma {:induction false} PlayStaysFailed<T, B>(env: Environment<T>, g: Guard<T, B>, db: Database<T>,
                                                 events: seq<Event<T>>)
    requires g.failed
    ensures Play(env, g, db, events).0 == g
    decreases |events|
  {
    if events != [] {
      match events[0]
      case Foreign(t) => PlayStaysFailed(env, g, db.(committed := t), events[1..]);
      case Trusted(st) =>
        PlayStaysFailed(env, g, Settled(db, st), events[1..]);
    }
  }

  /** A postflight that verifies proves the tables: whatever happened in between, the committed tables
      are the preflight tables with exactly the traced statements applied in order, and everything else
      that the capture covers is as it was. If tracking did not fail, the converse holds as well. */
  lemma VerifiedMeansReplayed<T(!new), B>(env: Environment<T>, operation: string, base: B, tables: T,
                                              events: seq<Event<T>>, baseAfter: B)
    requires CollisionFree(env)
    ensures var (g, db) := Play(env, Preflight(env, operation, base, tables), Database(tables, None), events);
            var replayed := Replay(Database(tables, None), Traced(events));
            && (!g.failed ==> replayed.Some?)
            && (Verified(env, g, baseAfter, db) <==>
                  !g.failed && baseAfter == base && replayed.Some? && db.committed == Visible(replayed.value))
  {
    PlayReplays(env, Preflight(env, operation, base, tables), Database(tables, None), events);
    var (g, db) := Play(env, Preflight(env, operation, base, tables), Database(tables, None), events);
    assert env.digest(db.committed) == env.digest(Visible(g.mirror)) ==> db.committed == Visible(g.mirror);
  }

  /** Nobody else writes, every statement that could change anything is traced, and a write is issued inside
      a transaction, as the driver arranges. Statements may fail. */
  predicate OnlyTrusted<T>(db: Database<T>, events: seq<Event<T>>)
    decreases |events|
  {
    events == []
    || (&& events[0].Trusted?
        && (!events[0].st.kind.Read? ==> Tracked(events[0].st.text))
        && (events[0].st.kind.Write? ==> db.open.Some?)
        && OnlyTrusted(Settled(db, events[0].st), events[1..]))
  }

  /** Every traced statement succeeds, and leaves a state visible that is within the byte bound. */
  predicate AllApply<T>(env: Environment<T>, db: Database<T>, events: seq<Event<T>>)
    requires OnlyTrusted(db, events)
    decreases |events|
  {
    events == []
    || (var st := events[0].st;
        && (Tracked(st.text) ==> Execute(db, st).Some? && env.fits(Visible(Settled(db, st))))
        && AllApply(env, Settled(db, st), events[1..]))
  }

  lemma {:induction false} TrustedKeepsMirror<T, B>(env: Environment<T>, g: Guard<T, B>, db: Database<T>,
                                                    events: seq<Event<T>>)
    requires !g.failed && g.expected == Critical(g.base, env.digest(Visible(g.mirror))) && g.mirror == db
    requires OnlyTrusted(db, events)
    ensures var (last, end) := Play(env, g, db, events);
            && (last.failed <==> !AllApply(env, db, events))
            && (!last.failed ==> last.mirror == end && last.expected == Critical(g.base, env.digest(Visible(end))))
    decreases |events|
  {
    if events != [] {
      var st := events[0].st;
      var next, after := Record(env, g, st), Settled(db, st);
      if next.failed {
        PlayStaysFailed(env, next, after, events[1..]);
      } else {
        TrustedKeepsMirror(env, next, after, events[1..]);
      }
    }
  }

  /** When only the trusted worker wrote, tracking fails exactly when a traced statement failed or a snapshot
      outgrew its bound, and the postflight verifies exactly when tracking did not fail, nothing else changed,
      and no transaction with a visible effect is still open. */
  lemma TrustedRunVerifies<T(!new), B>(env: Environment<T>, operation: string, base: B, tables: T,
                                           events: seq<Event<T>>, baseAfter: B)
    requires CollisionFree(env) && OnlyTrusted(Database(tables, None), events)
    ensures var (g, db) := Play(env, Preflight(env, operation, base, tables), Database(tables, None), events);
            && (g.failed <==> !AllApply(env, Database(tables, None), events))
            && (Verified(env, g, baseAfter, db) <==>
                  !g.failed && baseAfter == base && Visible(db) == db.committed)
  {
    TrustedKeepsMirror(env, Preflight(env, operation, base, tables), Database(tables, None), events);
    var (g, db) := Play(env, Preflight(env, operation, base, tables), Database(tables, None), events);
    assert env.digest(db.committed) == env.digest(Visible(db)) ==> db.committed == Visible(db);
  }
}
