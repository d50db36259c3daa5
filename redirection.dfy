/**
 * The redirection planner of the shell's exec path: derivation of open(2) flags and
 * literal descriptors from a redirection directive, translation of an ordered I/O chain
 * into a plan of primitive dup2/close actions, and the query "what will descriptor N
 * refer to once the plan has run".
 */
module Redirection {
  import opened Wrappers

  // ---------------------------------------------------------------------------
  // Redirection directives
  // ---------------------------------------------------------------------------

  datatype Mode = Append | Overwrite | NoClob | Input | Fd

  /** One user-level redirection: the descriptor slot, the mode and the target text. */
  datatype RedirectionSpec = RedirectionSpec(fd: int, mode: Mode, target: string)

  /** The open(2) flags a file redirection can ask for; a set of them is a flag word. */
  datatype OpenFlag = CREAT | APPEND | WRONLY | TRUNC | EXCL | RDONLY

  /**
   * The flags passed to open(2) for a file redirection. The descriptor-duplication mode
   * is not a file redirection: asking for its flags is a fatal defect, so it is excluded.
   */
  function OFlags(spec: RedirectionSpec): (r: set<OpenFlag>)
    requires spec.mode != Fd
    ensures (WRONLY in r) == (spec.mode != Input)
    ensures (CREAT in r) == (spec.mode != Input)
    ensures (RDONLY in r) == (spec.mode == Input)
    ensures (TRUNC in r) == (spec.mode == Overwrite)
    ensures (EXCL in r) == (spec.mode == NoClob)
    ensures (APPEND in r) == (spec.mode == Append)
    ensures !(WRONLY in r && RDONLY in r)
  {
    match spec.mode
    case Append => {CREAT, APPEND, WRONLY}
    case Overwrite => {CREAT, WRONLY, TRUNC}
    case NoClob => {CREAT, EXCL, WRONLY}
    case Input => {RDONLY}
  }

  /**
   * What the integer parser reports for a text: the integer it read and the errno it left
   * (non-zero for a malformed or out-of-range literal). The parser itself is not modelled.
   */
  datatype ParseOutcome = ParseOutcome(value: int, errno: int)

  /**
   * The target text read as a descriptor number: none when the parser set errno or read a
   * negative number, the number otherwise.
   */
  function GetTargetAsFd(spec: RedirectionSpec, wcstoi: string -> ParseOutcome): (r: Option<int>)
    ensures r.Some? <==> wcstoi(spec.target).errno == 0 && wcstoi(spec.target).value >= 0
    ensures r.Some? ==> r.value >= 0 && r.value == wcstoi(spec.target).value
  {
    var p := wcstoi(spec.target);
    if p.errno != 0 || p.value < 0 then None else Some(p.value)
  }

  // ---------------------------------------------------------------------------
  // The I/O chain and the plan
  // ---------------------------------------------------------------------------

  /** One already-resolved entry of an I/O chain; `fd` is always the slot being redirected. */
  datatype IoEntry =
    | IoFile(fd: int, fileFd: int)
    | IoClose(fd: int)
    | IoFd(fd: int, oldFd: int)
    | IoPipe(fd: int, pipeFd: int)
    | IoBufferFill(fd: int, writeFd: int)

  /**
   * One primitive action: dup2(src, target), or, when target is negative, close(src).
   */
  datatype Action = Action(src: int, target: int) {
    predicate IsClose() { target < 0 }
  }

  function Dup2(src: int, target: int): Action { Action(src, target) }

  function CloseOf(fd: int): Action { Action(fd, -1) }

  /**
   * The actions emitted for one entry of the chain: a close entry closes its slot; any
   * other entry duplicates its source descriptor into its slot, and a pipe or buffer entry
   * then closes that source.
   */
  function EntryActions(e: IoEntry): (r: seq<Action>)
    ensures |r| == if e.IoPipe? || e.IoBufferFill? then 2 else 1
    ensures r[0].src == SourceFd(e)
    ensures e.IoClose? ==> r[0] == CloseOf(e.fd)
    ensures !e.IoClose? ==> r[0].target == e.fd
    ensures |r| == 2 ==> r[1] == CloseOf(r[0].src)
  {
    match e
    case IoFile(fd, fileFd) => [Dup2(fileFd, fd)]
    case IoClose(fd) => [CloseOf(fd)]
    case IoFd(fd, oldFd) => [Dup2(oldFd, fd)]
    case IoPipe(fd, pipeFd) => [Dup2(pipeFd, fd), CloseOf(pipeFd)]
    case IoBufferFill(fd, writeFd) => [Dup2(writeFd, fd), CloseOf(writeFd)]
  }

  /** The plan for a chain: the entries' actions, in chain order. */
  function PlanOf(chain: seq<IoEntry>): (r: seq<Action>)
    ensures |chain| <= |r| <= 2 * |chain|
  {
    if chain == [] then [] else EntryActions(chain[0]) + PlanOf(chain[1..])
  }

  lemma {:induction false} PlanConcat(a: seq<IoEntry>, b: seq<IoEntry>)
    ensures PlanOf(a + b) == PlanOf(a) + PlanOf(b)
  {
    if a == [] {
      assert a + b == b;
    } else {
      assert (a + b)[0] == a[0];
      assert (a + b)[1..] == a[1..] + b;
      PlanConcat(a[1..], b);
    }
  }

  /**
   * Builds the plan for a chain, appending each entry's actions to a growing list.
   * It never fails.
   */
  method ResolveChain(chain: seq<IoEntry>) returns (r: Option<seq<Action>>)
    ensures r == Some(PlanOf(chain))
  {
    var result: seq<Action> := [];
    for i := 0 to |chain|
      invariant result == PlanOf(chain[..i])
    {
      var e := chain[i];
      match e {
        case IoFile(fd, fileFd) =>
          result := result + [Dup2(fileFd, fd)];
        case IoClose(fd) =>
          result := result + [CloseOf(fd)];
        case IoFd(fd, oldFd) =>
          result := result + [Dup2(oldFd, fd)];
        case IoPipe(fd, pipeFd) =>
          result := result + [Dup2(pipeFd, fd)];
          result := result + [CloseOf(pipeFd)];
        case IoBufferFill(fd, writeFd) =>
          result := result + [Dup2(writeFd, fd)];
          result := result + [CloseOf(writeFd)];
      }
      assert chain[..i + 1] == chain[..i] + [e];
      PlanConcat(chain[..i], [e]);
      assert PlanOf([e]) == EntryActions(e) + PlanOf([]);
    }
    assert chain[..|chain|] == chain;
    r := Some(result);
  }

  // ---------------------------------------------------------------------------
  // Shape of a plan
  // ---------------------------------------------------------------------------

  datatype Kind = FileKind | CloseKind | FdKind | PipeKind | BufferFillKind

  function KindOf(e: IoEntry): Kind {
    match e
    case IoFile(_, _) => FileKind
    case IoClose(_) => CloseKind
    case IoFd(_, _) => FdKind
    case IoPipe(_, _) => PipeKind
    case IoBufferFill(_, _) => BufferFillKind
  }

  /** The number of entries of kind `k` in the chain. */
  function Count(chain: seq<IoEntry>, k: Kind): nat {
    if chain == [] then 0 else (if KindOf(chain[0]) == k then 1 else 0) + Count(chain[1..], k)
  }

  /** A plan holds one action per file, close and fd entry and two per pipe and buffer entry. */
  lemma {:induction false} PlanLength(chain: seq<IoEntry>)
    ensures |PlanOf(chain)| ==
      Count(chain, FileKind) + Count(chain, CloseKind) + Count(chain, FdKind)
      + 2 * (Count(chain, PipeKind) + Count(chain, BufferFillKind))
  {
    if chain != [] {
      PlanLength(chain[1..]);
    }
  }

  /** Where the actions of entry j start in the plan of the chain. */
  function Offset(chain: seq<IoEntry>, j: nat): nat
    requires j <= |chain|
  {
    |PlanOf(chain[..j])|
  }

  /**
   * Entry j's actions sit, unchanged and in order, right after those of the entries before
   * it: nothing is reordered, merged or dropped.
   */
  lemma EntryPlacement(chain: seq<IoEntry>, j: nat)
    requires j < |chain|
    ensures Offset(chain, j) + |EntryActions(chain[j])| <= |PlanOf(chain)|
    ensures PlanOf(chain)[Offset(chain, j)..Offset(chain, j) + |EntryActions(chain[j])|]
            == EntryActions(chain[j])
  {
    var pre, e, post := chain[..j], chain[j], chain[j + 1..];
    assert chain == pre + ([e] + post);
    PlanConcat(pre, [e] + post);
    PlanConcat([e], post);
    assert PlanOf([e]) == EntryActions(e) + PlanOf([]);
    var x, y, z := PlanOf(pre), EntryActions(e), PlanOf(post);
    assert PlanOf(chain) == x + (y + z);
    SliceOfMiddle(x, y, z);
  }

  lemma SliceOfMiddle<T>(x: seq<T>, y: seq<T>, z: seq<T>)
    ensures (x + (y + z))[|x|..|x| + |y|] == y
  {
  }

  /**
   * The duplicate of a pipe or buffer descriptor is followed at once by a close of that same
   * descriptor, so it does not leak into the exec'd program.
   */
  lemma PipeIsClosedAfterDup(chain: seq<IoEntry>, j: nat)
    requires j < |chain| && (chain[j].IoPipe? || chain[j].IoBufferFill?)
    ensures Offset(chain, j) + 1 < |PlanOf(chain)|
    ensures var p, o := PlanOf(chain), Offset(chain, j);
      && p[o] == Dup2(if chain[j].IoPipe? then chain[j].pipeFd else chain[j].writeFd, chain[j].fd)
      && p[o + 1].IsClose() && p[o + 1].src == p[o].src
  {
    EntryPlacement(chain, j);
    var p, o := PlanOf(chain), Offset(chain, j);
    assert p[o] == p[o..o + 2][0] && p[o + 1] == p[o..o + 2][1];
  }

  lemma PipeExample()
    ensures PlanOf([IoPipe(1, 7)]) == [Dup2(7, 1), CloseOf(7)]
  {
  }

  // ---------------------------------------------------------------------------
  // What a descriptor refers to once the plan has run
  // ---------------------------------------------------------------------------

  /**
   * The backward walk over a plan: from the last action to the first, a dup2 into the
   * cursor renames the cursor to its source, and a close of the cursor ends the walk with -1.
   */
  function Walk(plan: seq<Action>, cursor: int): (r: int)
    ensures r == cursor || r == -1 || exists i :: 0 <= i < |plan| && r == plan[i].src
    decreases |plan|
  {
    if plan == [] then cursor
    else
      var a, rest := plan[|plan| - 1], plan[..|plan| - 1];
      assert forall i :: 0 <= i < |rest| ==> rest[i] == plan[i];
      if a.target == cursor then Walk(rest, a.src)
      else if a.src == cursor && a.target < 0 then -1
      else Walk(rest, cursor)
  }

  /** The contents of a descriptor slot: a descriptor the process had before the plan, or nothing. */
  datatype Slot = Open(fd: int) | Closed

  /** A descriptor table; a slot that is not a key still holds its own descriptor. */
  type FdTable = map<int, Slot>

  function Lookup(m: FdTable, s: int): Slot {
    if s in m then m[s] else Open(s)
  }

  /**
   * POSIX semantics of one action: dup2(src, target) makes `target` refer to what `src`
   * refers to, close(fd) empties `fd`; no other slot changes.
   */
  function Step(m: FdTable, a: Action): (r: FdTable)
    ensures a.IsClose() ==> Lookup(r, a.src) == Closed
    ensures !a.IsClose() ==> Lookup(r, a.target) == Lookup(m, a.src)
    ensures forall s :: s != (if a.IsClose() then a.src else a.target) ==> Lookup(r, s) == Lookup(m, s)
  {
    if a.IsClose() then m[a.src := Closed] else m[a.target := Lookup(m, a.src)]
  }

  /** Forward execution of a plan, first action first. */
  function Run(plan: seq<Action>, m: FdTable): FdTable
    decreases |plan|
  {
    if plan == [] then m else Run(plan[1..], Step(m, plan[0]))
  }

  lemma {:induction false} RunSnoc(plan: seq<Action>, a: Action, m: FdTable)
    ensures Run(plan + [a], m) == Step(Run(plan, m), a)
  {
    if plan == [] {
      assert [] + [a] == [a];
      assert Run([a], m) == Run([], Step(m, a));
    } else {
      assert (plan + [a])[0] == plan[0];
      assert (plan + [a])[1..] == plan[1..] + [a];
      RunSnoc(plan[1..], a, Step(m, plan[0]));
    }
  }

  /** The number a query reports for a slot: its descriptor, or -1 when it is closed. */
  function Reported(s: Slot): int {
    match s
    case Open(fd) => fd
    case Closed => -1
  }

  /** Every action names a real descriptor as its source. */
  predicate WellFormed(plan: seq<Action>) {
    forall i :: 0 <= i < |plan| ==> plan[i].src >= 0
  }

  /**
   * The backward walk agrees with forward execution: for a well-formed plan and a
   * non-negative cursor it reports what forward execution leaves in that slot.
   */
  lemma {:induction false} WalkMatchesRun(plan: seq<Action>, c: int)
    requires WellFormed(plan) && c >= 0
    ensures Walk(plan, c) == Reported(Lookup(Run(plan, map[]), c))
  {
    if plan != [] {
      var a, rest := plan[|plan| - 1], plan[..|plan| - 1];
      assert plan == rest + [a];
      RunSnoc(rest, a, map[]);
      assert WellFormed(rest) by {
        forall i | 0 <= i < |rest| ensures rest[i].src >= 0 {
          assert rest[i] == plan[i];
        }
      }
      assert a.src >= 0 by { assert a == plan[|plan| - 1]; }
      if a.target == c {
        WalkMatchesRun(rest, a.src);
      } else if a.src == c && a.target < 0 {
      } else {
        WalkMatchesRun(rest, c);
      }
    }
  }

  /**
   * The descriptor that `target` will refer to once the plan has run: a negative target
   * comes back unchanged, a closed slot reports -1.
   */
  method FdForTargetFd(plan: seq<Action>, target: int) returns (r: int)
    ensures target < 0 ==> r == target
    ensures target >= 0 ==> r == Walk(plan, target)
    ensures WellFormed(plan) && target >= 0 ==> r == Reported(Lookup(Run(plan, map[]), target))
  {
    if target < 0 {
      return target;
    }
    var cursor := target;
    var i := |plan|;
    assert plan[..i] == plan;
    while i > 0
      invariant 0 <= i <= |plan|
      invariant Walk(plan[..i], cursor) == Walk(plan, target)
    {
      var a := plan[i - 1];
      assert plan[..i][..i - 1] == plan[..i - 1];
      if a.target == cursor {
        cursor := a.src;
      } else if a.src == cursor && a.target < 0 {
        cursor := -1;
        break;
      }
      i := i - 1;
    }
    assert plan[..0] == [];
    if WellFormed(plan) {
      WalkMatchesRun(plan, target);
    }
    r := cursor;
  }

  /**
   * A slot that no action writes into keeps its own descriptor, unless some action closes it.
   */
  lemma {:induction false} WalkUntouched(plan: seq<Action>, t: int)
    requires forall i :: 0 <= i < |plan| ==> plan[i].target != t
    ensures Walk(plan, t) ==
      if exists i :: 0 <= i < |plan| && plan[i].IsClose() && plan[i].src == t then -1 else t
  {
    if plan != [] {
      var a, rest := plan[|plan| - 1], plan[..|plan| - 1];
      assert forall i :: 0 <= i < |rest| ==> rest[i] == plan[i];
      WalkUntouched(rest, t);
      if a.src == t && a.target < 0 {
        assert exists i :: 0 <= i < |plan| && plan[i].IsClose() && plan[i].src == t by {
          assert plan[|plan| - 1] == a;
        }
      }
    }
  }

  /** Every descriptor an entry names is a real (non-negative) descriptor. */
  predicate ChainWellFormed(chain: seq<IoEntry>) {
    forall i :: 0 <= i < |chain| ==> chain[i].fd >= 0 && SourceFd(chain[i]) >= 0
  }

  /** The descriptor an entry duplicates from (the closed one, for a close entry). */
  function SourceFd(e: IoEntry): int {
    match e
    case IoFile(_, fileFd) => fileFd
    case IoClose(fd) => fd
    case IoFd(_, oldFd) => oldFd
    case IoPipe(_, pipeFd) => pipeFd
    case IoBufferFill(_, writeFd) => writeFd
  }

  lemma {:induction false} PlanWellFormed(chain: seq<IoEntry>)
    requires ChainWellFormed(chain)
    ensures WellFormed(PlanOf(chain))
    ensures forall j :: 0 <= j < |chain| ==>
      Offset(chain, j) < |PlanOf(chain)| && (PlanOf(chain)[Offset(chain, j)].IsClose() <==> chain[j].IoClose?)
  {
    forall j | 0 <= j < |chain|
      ensures Offset(chain, j) < |PlanOf(chain)|
      ensures PlanOf(chain)[Offset(chain, j)].IsClose() <==> chain[j].IoClose?
    {
      EntryPlacement(chain, j);
      var o, ea := Offset(chain, j), EntryActions(chain[j]);
      assert PlanOf(chain)[o] == PlanOf(chain)[o..o + |ea|][0];
      assert chain[j].fd >= 0;
    }
    if chain != [] {
      assert ChainWellFormed(chain[1..]) by {
        forall i | 0 <= i < |chain| - 1 ensures chain[1..][i].fd >= 0 && SourceFd(chain[1..][i]) >= 0 {
          assert chain[1..][i] == chain[i + 1];
        }
      }
      PlanWellFormed(chain[1..]);
      assert chain[0].fd >= 0 && SourceFd(chain[0]) >= 0;
    }
  }

  /**
   * For a chain of real descriptors, querying the plan the chain resolves to reports what
   * forward execution of that plan leaves in the slot.
   */
  lemma ChainQueryMatchesRun(chain: seq<IoEntry>, t: int)
    requires ChainWellFormed(chain) && t >= 0
    ensures Walk(PlanOf(chain), t) == Reported(Lookup(Run(PlanOf(chain), map[]), t))
  {
    PlanWellFormed(chain);
    WalkMatchesRun(PlanOf(chain), t);
  }

  /**
   * The attempted swap [1 <- 2, 2 <- 1] is not a swap: both slots end up referring to
   * descriptor 2, and forward execution agrees.
   */
  lemma SwapRegression()
    ensures PlanOf([IoFd(1, 2), IoFd(2, 1)]) == [Dup2(2, 1), Dup2(1, 2)]
    ensures Walk(PlanOf([IoFd(1, 2), IoFd(2, 1)]), 1) == 2
    ensures Walk(PlanOf([IoFd(1, 2), IoFd(2, 1)]), 2) == 2
    ensures Lookup(Run(PlanOf([IoFd(1, 2), IoFd(2, 1)]), map[]), 1) == Open(2)
    ensures Lookup(Run(PlanOf([IoFd(1, 2), IoFd(2, 1)]), map[]), 2) == Open(2)
  {
    var plan := PlanOf([IoFd(1, 2), IoFd(2, 1)]);
    assert plan == [Dup2(2, 1), Dup2(1, 2)] by {
      assert [IoFd(1, 2), IoFd(2, 1)][1..] == [IoFd(2, 1)];
    }
    assert plan[..1] == [Dup2(2, 1)];
    ChainQueryMatchesRun([IoFd(1, 2), IoFd(2, 1)], 1);
    ChainQueryMatchesRun([IoFd(1, 2), IoFd(2, 1)], 2);
  }

  /** Single-entry chains: duplication reports the source, a close reports -1. */
  lemma SingleEntryExamples()
    ensures Walk(PlanOf([IoFd(2, 1)]), 2) == 1
    ensures Walk(PlanOf([IoClose(5)]), 5) == -1
  {
    assert PlanOf([IoFd(2, 1)]) == [Dup2(1, 2)];
    assert PlanOf([IoClose(5)]) == [CloseOf(5)];
  }

  /**
   * No entry targets slot 5, yet the pipe whose own descriptor is 5 closes it.
   */
  lemma PipeClosesOwnDescriptor()
    ensures Walk(PlanOf([IoPipe(1, 5)]), 5) == -1
    ensures Lookup(Run(PlanOf([IoPipe(1, 5)]), map[]), 5) == Closed
  {
    ChainQueryMatchesRun([IoPipe(1, 5)], 5);
  }

  /** The empty chain gives the empty plan, on which every query is the identity. */
  lemma EmptyChain(t: int)
    ensures PlanOf([]) == [] && Walk(PlanOf([]), t) == t
  {
  }
}
