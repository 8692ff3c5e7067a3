/**
 * Minting a key, publishing it in a file and revoking it on failure, by any
 * number of processes that share one destination. Each process moves by single
 * file-system and key-store operations, in any interleaving; any of them may
 * raise or be its process's last.
 */
module KeyPublication {
  import opened Common

  type Pid = nat

  /** A key is named by its secret text. */
  type Secret = string

  datatype KeyState = Active | Revoked

  /** What became of the revocation. */
  datatype Failure = WasRevoked | NotRevoked | RevokeRaised

  datatype Phase =
    | Starting                 // about to check the destination
    | Prepared                 // about to mint
    | Minted                   // about to create the temporary file
    | Writing(written: nat)    // temporary file open
    | Written                  // temporary file complete and closed, about to publish
    | Linked                   // published by link, about to remove the temporary name
    | Tidied                   // about to set the mode
    | Closing                  // about to close the key store
    | Succeeded
    | Cleaning                 // a step raised with a temporary file about
    | Revoking                 // about to revoke
    | Leaving(why: Failure)    // about to close the key store, with a message to end with
    | Failed(why: Failure)     // ended with that message
    | FailedInClosing(why: Failure)  // ended by the exception of closing the store, raised over that message
    | FailedAfterPublish       // the key store did not close
    | Refused                  // ended before minting
    | Dead(revoked: bool)

  datatype Proc = Proc(replace: bool, phase: Phase, key: Option<Secret>)

  datatype World = World(
    dest: Option<string>,
    temps: map<Pid, string>,
    keys: map<Secret, KeyState>,
    procs: map<Pid, Proc>)

  datatype Event = Go | Mint(key: Secret) | Write(count: nat) | Answer(revoked: bool) | Raise | Die

  function Data(key: Secret): string {
    key + "\n"
  }

  function Enter(w: World, p: Pid, phase: Phase): World
    requires p in w.procs
  {
    w.(procs := w.procs[p := w.procs[p].(phase := phase)])
  }

  function DropTemp(w: World, p: Pid): World {
    w.(temps := w.temps - {p})
  }

  predicate Ended(phase: Phase) {
    || phase == Succeeded || phase.Failed? || phase.FailedInClosing? || phase == FailedAfterPublish
    || phase == Refused || phase.Dead?
  }

  /** The process has been told that its key is revoked. */
  predicate IsRevoked(phase: Phase) {
    || phase == Leaving(WasRevoked) || phase == Failed(WasRevoked) || phase == FailedInClosing(WasRevoked)
    || phase == Dead(true)
  }

  /** One operation of process `p`; an event that does not fit its phase leaves everything as it is. */
  function Step(w: World, p: Pid, e: Event): World {
    if p !in w.procs || Ended(w.procs[p].phase) then w
    else if e == Die then Enter(w, p, Dead(IsRevoked(w.procs[p].phase)))
    else if e == Raise then StepRaise(w, p)
    else StepOn(w, p, e)
  }

  /** Where a raised exception leads. */
  function StepRaise(w: World, p: Pid): World
    requires p in w.procs
  {
    Enter(w, p,
      match w.procs[p].phase
      case Starting => Refused
      case Prepared => Refused
      case Minted => Revoking
      case Writing(_) => Cleaning
      case Written => Cleaning
      case Linked => Cleaning
      case Tidied => Revoking
      case Closing => FailedAfterPublish
      case Cleaning => Revoking
      case Revoking => Leaving(RevokeRaised)
      case Leaving(why) => FailedInClosing(why)
      case other => other)
  }

  function StepOn(w: World, p: Pid, e: Event): World
    requires p in w.procs
  {
    var proc := w.procs[p];
    match proc.phase
    case Starting =>
      if e != Go then w else Enter(w, p, if w.dest.Some? && !proc.replace then Refused else Prepared)
    case Prepared =>
      if !e.Mint? || e.key in w.keys then w
      else w.(keys := w.keys[e.key := Active], procs := w.procs[p := proc.(phase := Minted, key := Some(e.key))])
    case Minted =>
      if e != Go then w
      else if p in w.temps then Enter(w, p, Revoking)
      else Enter(w.(temps := w.temps[p := ""]), p, Writing(0))
    case Writing(n) =>
      if !e.Write? || proc.key.None? || p !in w.temps then w else StepWrite(w, p, n, e.count)
    case Written =>
      if e != Go || p !in w.temps then w else Publish(w, p)
    case Linked =>
      if e != Go then w else Enter(DropTemp(w, p), p, Tidied)
    case Tidied =>
      if e != Go then w else Enter(w, p, Closing)
    case Closing =>
      if e != Go then w else Enter(w, p, Succeeded)
    case Cleaning =>
      if e != Go then w else Enter(DropTemp(w, p), p, Revoking)
    case Revoking =>
      if !e.Answer? || proc.key.None? then w
      else if e.revoked then Enter(w.(keys := w.keys[proc.key.value := Revoked]), p, Leaving(WasRevoked))
      else Enter(w, p, Leaving(NotRevoked))
    case Leaving(why) =>
      if e != Go then w else Enter(w, p, Failed(why))
    case _ => w
  }

  /** One turn of the write loop: done, a short write, or some more of the key. */
  function StepWrite(w: World, p: Pid, n: nat, count: nat): World
    requires p in w.procs && w.procs[p].key.Some? && p in w.temps
  {
    var data := Data(w.procs[p].key.value);
    if n >= |data| then Enter(w, p, Written)
    else if count == 0 then Enter(w, p, Cleaning)
    else
      var m := Min(n + count, |data|);
      Enter(w.(temps := w.temps[p := w.temps[p] + data[n..m]]), p, Writing(m))
  }

  /** Rename over the destination, or link to it, which fails when it exists. */
  function Publish(w: World, p: Pid): World
    requires p in w.procs && p in w.temps
  {
    if w.procs[p].replace then Enter(DropTemp(w.(dest := Some(w.temps[p])), p), p, Tidied)
    else if w.dest.Some? then Enter(w, p, Cleaning)
    else Enter(w.(dest := Some(w.temps[p])), p, Linked)
  }

  function Steps(w: World, trace: seq<(Pid, Event)>): World {
    if trace == [] then w
    else
      var n := |trace| - 1;
      Step(Steps(w, trace[..n]), trace[n].0, trace[n].1)
  }

  /** Processes that have not begun, and keys and files left by whatever came before. */
  ghost predicate Initial(w: World) {
    forall p :: p in w.procs ==> w.procs[p].phase == Starting && w.procs[p].key == None
  }

  /** No process was given the replace flag. */
  ghost predicate NoReplace(w: World) {
    forall p :: p in w.procs ==> !w.procs[p].replace
  }

  // ----- What every step keeps

  predicate HasPublished(phase: Phase) {
    phase == Linked || phase == Tidied || phase == Closing || phase == Succeeded || phase == FailedAfterPublish
  }

  predicate BeforeMint(phase: Phase) {
    phase == Starting || phase == Prepared || phase == Refused
  }

  /** What holds of one process, whatever the others are told to do. */
  predicate ProcSound(w: World, p: Pid)
    requires p in w.procs
  {
    var proc := w.procs[p];
    && (BeforeMint(proc.phase) ==> proc.key == None)
    && (proc.key.None? ==> BeforeMint(proc.phase) || proc.phase == Dead(false))
    && (proc.key.Some? ==>
          var key := proc.key.value;
          && key in w.keys
          && (w.keys[key] == Revoked <==> IsRevoked(proc.phase))
          && (proc.phase.Writing? ==>
                && proc.phase.written <= |Data(key)|
                && p in w.temps && w.temps[p] == Data(key)[..proc.phase.written])
          && (proc.phase == Written ==> p in w.temps && w.temps[p] == Data(key)))
  }

  /** When nobody replaces, a published key also stays where it is. */
  predicate ProcOk(w: World, p: Pid)
    requires p in w.procs
  {
    ProcSound(w, p) && (HasPublished(w.procs[p].phase) ==> InDestination(w, p))
  }

  predicate InDestination(w: World, p: Pid)
    requires p in w.procs
  {
    w.procs[p].key.Some? && w.dest == Some(Data(w.procs[p].key.value))
  }

  /** Different processes hold different keys, and what the destination gained is some process's whole key. */
  ghost predicate Sound(w0: World, w: World) {
    && w.procs.Keys == w0.procs.Keys
    && (forall p :: p in w.procs ==> w.procs[p].replace == w0.procs[p].replace)
    && (forall p :: p in w.procs ==> ProcSound(w, p))
    && (forall p, q :: p in w.procs && q in w.procs && p != q && w.procs[p].key.Some? ==>
          w.procs[p].key != w.procs[q].key)
    && (w.dest == w0.dest
        || exists p :: p in w.procs && w.procs[p].key.Some? && w.dest == Some(Data(w.procs[p].key.value)))
  }

  /** And, when nobody replaces, published keys stay. */
  ghost predicate Coherent(w0: World, w: World) {
    Sound(w0, w) && forall p :: p in w.procs ==> ProcOk(w, p)
  }

  lemma DataDecides(a: Secret, b: Secret)
    requires Data(a) == Data(b)
    ensures a == b
  {
    assert a == Data(a)[..|a|] && b == Data(b)[..|b|];
  }

  /** An existing destination is only ever touched by a process told to replace it. */
  lemma DestStable(w: World, p: Pid, e: Event)
    requires w.dest.Some? && Step(w, p, e).dest != w.dest
    ensures p in w.procs && w.procs[p].replace && w.procs[p].phase == Written && e == Go
  {
  }

  /** What a step of `p` leaves alone, and how it may touch what is shared. */
  ghost predicate Framed(w: World, w': World, p: Pid) {
    && w'.procs.Keys == w.procs.Keys
    && (forall q :: q in w.procs && q != p ==> w'.procs[q] == w.procs[q])
    && (forall q :: q != p ==> (q in w.temps <==> q in w'.temps) && (q in w.temps ==> w'.temps[q] == w.temps[q]))
    && (forall k :: k in w.keys ==> k in w'.keys)
    && (forall k :: k in w.keys && w'.keys[k] != w.keys[k] ==> p in w.procs && w.procs[p].key == Some(k))
    && (w'.dest == w.dest
      || (p in w.procs && w.procs[p].phase == Written && p in w.temps && w'.dest == Some(w.temps[p])))
    && (p in w.procs ==>
          && w'.procs[p].replace == w.procs[p].replace
          && (w'.procs[p].key == w.procs[p].key
              || (w.procs[p].phase == Prepared && w'.procs[p].key.Some? && w'.procs[p].key.value !in w.keys)))
  }

  lemma StepFramed(w: World, p: Pid, e: Event)
    ensures Framed(w, Step(w, p, e), p)
  {
    hide StepOn;
    if p in w.procs {
      StepOnFramed(w, p, e);
    }
  }

  lemma StepOnFramed(w: World, p: Pid, e: Event)
    requires p in w.procs
    ensures Framed(w, StepOn(w, p, e), p)
  {
    hide StepWrite, Publish, Framed;
    EnterFramed(w, p, Refused);
    match w.procs[p].phase
    case Starting => EnterFramed(w, p, Prepared);
    case Prepared => if e.Mint? && e.key !in w.keys { MintFramed(w, p, e.key); }
    case Minted => EnterFramed(w, p, Revoking); TempFramed(w, p, "", Writing(0));
    case Writing(n) => if e.Write? && w.procs[p].key.Some? && p in w.temps { WriteFramed(w, p, n, e.count); }
    case Written => if p in w.temps { PublishFramed(w, p); }
    case Linked => EnterFramed(w, p, Tidied);
    case Tidied => EnterFramed(w, p, Closing);
    case Closing => EnterFramed(w, p, Succeeded);
    case Cleaning => EnterFramed(w, p, Revoking);
    case Revoking => EnterFramed(w, p, Leaving(NotRevoked)); RevokeFramed(w, p);
    case Leaving(why) => EnterFramed(w, p, Failed(why));
    case _ =>
  }

  lemma EnterFramed(w: World, p: Pid, phase: Phase)
    requires p in w.procs
    ensures Framed(w, w, p) && Framed(w, Enter(w, p, phase), p) && Framed(w, Enter(DropTemp(w, p), p, phase), p)
  {
  }

  lemma TempFramed(w: World, p: Pid, text: string, phase: Phase)
    requires p in w.procs
    ensures Framed(w, Enter(w.(temps := w.temps[p := text]), p, phase), p)
  {
  }

  lemma MintFramed(w: World, p: Pid, key: Secret)
    requires p in w.procs && w.procs[p].phase == Prepared && key !in w.keys
    ensures Framed(w,
      w.(keys := w.keys[key := Active], procs := w.procs[p := w.procs[p].(phase := Minted, key := Some(key))]), p)
  {
  }

  lemma WriteFramed(w: World, p: Pid, n: nat, count: nat)
    requires p in w.procs && w.procs[p].key.Some? && p in w.temps
    ensures Framed(w, StepWrite(w, p, n, count), p)
  {
    hide Framed;
    EnterFramed(w, p, Written);
    EnterFramed(w, p, Cleaning);
    var data := Data(w.procs[p].key.value);
    if n < |data| {
      var m := Min(n + count, |data|);
      TempFramed(w, p, w.temps[p] + data[n..m], Writing(m));
    }
  }

  lemma PublishFramed(w: World, p: Pid)
    requires p in w.procs && p in w.temps && w.procs[p].phase == Written
    ensures Framed(w, Publish(w, p), p)
  {
  }

  lemma RevokeFramed(w: World, p: Pid)
    requires p in w.procs
    ensures w.procs[p].key.Some? ==>
      Framed(w, Enter(w.(keys := w.keys[w.procs[p].key.value := Revoked]), p, Leaving(WasRevoked)), p)
  {
  }

  lemma StepKeepsSound(w: World, p: Pid, e: Event)
    requires p in w.procs && ProcSound(w, p)
    ensures p in Step(w, p, e).procs && ProcSound(Step(w, p, e), p)
  {
    hide StepOn, StepRaise, ProcSound, Enter;
    RaiseKeepsSelf(w, p);
    DeathKeepsSelf(w, p);
    StepOnKeepsSelf(w, p, e);
  }

  lemma RaiseKeepsSelf(w: World, p: Pid)
    requires p in w.procs && ProcSound(w, p)
    ensures p in StepRaise(w, p).procs && ProcSound(StepRaise(w, p), p)
  {
  }

  lemma DeathKeepsSelf(w: World, p: Pid)
    requires p in w.procs && ProcSound(w, p)
    ensures var w' := Enter(w, p, Dead(IsRevoked(w.procs[p].phase))); p in w'.procs && ProcSound(w', p)
  {
  }

  lemma StepOnKeepsSelf(w: World, p: Pid, e: Event)
    requires p in w.procs && ProcSound(w, p)
    ensures p in StepOn(w, p, e).procs && ProcSound(StepOn(w, p, e), p)
  {
    hide StepOn, ProcSound;
    if IsEarly(w.procs[p].phase) {
      EarlyKeepsSelf(w, p, e);
    } else if IsLate(w.procs[p].phase) {
      LateKeepsSelf(w, p, e);
    } else {
      MiddleKeepsSelf(w, p, e);
    }
  }

  predicate IsEarly(phase: Phase) {
    phase == Starting || phase == Prepared || phase == Minted
  }

  predicate IsLate(phase: Phase) {
    phase == Cleaning || phase == Revoking || phase.Leaving? || Ended(phase)
  }

  lemma EarlyKeepsSelf(w: World, p: Pid, e: Event)
    requires p in w.procs && ProcSound(w, p) && IsEarly(w.procs[p].phase)
    ensures p in StepOn(w, p, e).procs && ProcSound(StepOn(w, p, e), p)
  {
    hide StepWrite, Publish;
  }

  lemma LateKeepsSelf(w: World, p: Pid, e: Event)
    requires p in w.procs && ProcSound(w, p) && IsLate(w.procs[p].phase)
    ensures p in StepOn(w, p, e).procs && ProcSound(StepOn(w, p, e), p)
  {
    hide StepWrite, Publish, ProcSound, Enter;
    LateEntersKeepSelf(w, p);
    if w.procs[p].phase == Revoking && w.procs[p].key.Some? {
      RevokingKeepsSelf(w, p);
    }
  }

  lemma LateEntersKeepSelf(w: World, p: Pid)
    requires p in w.procs && ProcSound(w, p)
    ensures w.procs[p].phase == Cleaning ==>
      p in Enter(DropTemp(w, p), p, Revoking).procs && ProcSound(Enter(DropTemp(w, p), p, Revoking), p)
    ensures w.procs[p].phase.Leaving? ==>
      var w' := Enter(w, p, Failed(w.procs[p].phase.why)); p in w'.procs && ProcSound(w', p)
  {
  }

  lemma RevokingKeepsSelf(w: World, p: Pid)
    requires p in w.procs && ProcSound(w, p) && w.procs[p].phase == Revoking && w.procs[p].key.Some?
    ensures var w' := Enter(w, p, Leaving(NotRevoked)); p in w'.procs && ProcSound(w', p)
    ensures var w' := Enter(w.(keys := w.keys[w.procs[p].key.value := Revoked]), p, Leaving(WasRevoked));
      p in w'.procs && ProcSound(w', p)
  {
  }

  lemma MiddleKeepsSelf(w: World, p: Pid, e: Event)
    requires p in w.procs && ProcSound(w, p)
    requires !IsEarly(w.procs[p].phase) && !IsLate(w.procs[p].phase)
    ensures p in StepOn(w, p, e).procs && ProcSound(StepOn(w, p, e), p)
  {
    hide StepWrite, Publish;
    if w.procs[p].phase.Writing? && e.Write? && w.procs[p].key.Some? && p in w.temps {
      WriteKeepsSelf(w, p, w.procs[p].phase.written, e.count);
    }
    if w.procs[p].phase == Written && p in w.temps {
      PublishKeepsSelf(w, p);
    }
  }

  lemma PublishKeepsSelf(w: World, p: Pid)
    requires p in w.procs && ProcSound(w, p) && w.procs[p].phase == Written && p in w.temps
    ensures p in Publish(w, p).procs && ProcSound(Publish(w, p), p)
  {
  }

  /** The temporary file always holds a prefix of the key, and all of it once the loop ends. */
  lemma WriteKeepsSelf(w: World, p: Pid, n: nat, count: nat)
    requires p in w.procs && ProcSound(w, p) && w.procs[p].phase == Writing(n) && w.procs[p].key.Some? && p in w.temps
    ensures p in StepWrite(w, p, n, count).procs && ProcSound(StepWrite(w, p, n, count), p)
  {
    var data := Data(w.procs[p].key.value);
    if n < |data| {
      var m := Min(n + count, |data|);
      assert data[..n] + data[n..m] == data[..m];
    } else {
      assert data[..n] == data;
    }
  }

  /** A process comes to have published only by publishing its whole key. */
  lemma PublishedBy(w: World, p: Pid, e: Event)
    requires p in w.procs && ProcSound(w, p)
    ensures var w' := Step(w, p, e);
      && p in w'.procs
      && (HasPublished(w'.procs[p].phase) ==>
            if HasPublished(w.procs[p].phase) then w'.dest == w.dest && w'.procs[p].key == w.procs[p].key
            else w.procs[p].phase == Written && e == Go && InDestination(w', p))
  {
    hide StepWrite;
    if w.procs[p].phase.Writing? && e.Write? && w.procs[p].key.Some? && p in w.temps {
      WriteStaysHome(w, p, w.procs[p].phase.written, e.count);
    }
  }

  lemma StepKeepsSelf(w: World, p: Pid, e: Event)
    requires p in w.procs && ProcOk(w, p)
    ensures p in Step(w, p, e).procs && ProcOk(Step(w, p, e), p)
  {
    hide Step, ProcSound, HasPublished;
    StepKeepsSound(w, p, e);
    PublishedBy(w, p, e);
  }

  /** Another process's step leaves this one sound. */
  lemma StepKeepsOtherSound(w: World, w': World, p: Pid, q: Pid)
    requires Framed(w, w', p)
    requires q in w.procs && q != p && ProcSound(w, q)
    requires p in w.procs && w.procs[q].key.Some? ==> w.procs[p].key != w.procs[q].key
    ensures ProcSound(w', q)
  {
  }

  lemma StepKeepsOther(w: World, w': World, p: Pid, q: Pid)
    requires Framed(w, w', p) && (w.dest.Some? ==> w'.dest == w.dest)
    requires q in w.procs && q != p && ProcOk(w, q)
    requires p in w.procs && w.procs[q].key.Some? ==> w.procs[p].key != w.procs[q].key
    ensures ProcOk(w', q)
  {
  }

  lemma KeysStayApart(w0: World, w: World, w': World, p: Pid)
    requires Sound(w0, w) && Framed(w, w', p)
    ensures forall q, r :: q in w'.procs && r in w'.procs && q != r && w'.procs[q].key.Some? ==>
      w'.procs[q].key != w'.procs[r].key
  {
    forall q | q in w.procs && w.procs[q].key.Some? ensures w.procs[q].key.value in w.keys {
      assert ProcSound(w, q);
    }
  }

  lemma DestStaysWhole(w0: World, w: World, w': World, p: Pid)
    requires Sound(w0, w) && Framed(w, w', p)
    ensures
      || w'.dest == w0.dest
      || exists q :: q in w'.procs && w'.procs[q].key.Some? && w'.dest == Some(Data(w'.procs[q].key.value))
  {
    if w'.dest != w.dest {
      assert ProcSound(w, p) && w'.procs[p].key == w.procs[p].key;
    } else if w.dest != w0.dest {
      var q :| q in w.procs && w.procs[q].key.Some? && w.dest == Some(Data(w.procs[q].key.value));
      assert ProcSound(w, q) && w'.procs[q].key == w.procs[q].key;
    }
  }

  lemma StepSound(w0: World, w: World, p: Pid, e: Event)
    requires Sound(w0, w)
    ensures Sound(w0, Step(w, p, e))
  {
    hide Step, ProcSound;
    var w' := Step(w, p, e);
    StepFramed(w, p, e);
    KeysStayApart(w0, w, w', p);
    DestStaysWhole(w0, w, w', p);
    if p in w.procs {
      StepKeepsSound(w, p, e);
    }
    forall q | q in w.procs && q != p ensures ProcSound(w', q) {
      StepKeepsOtherSound(w, w', p, q);
    }
  }

  lemma {:induction false} StepsSound(w0: World, trace: seq<(Pid, Event)>)
    requires Initial(w0)
    ensures Sound(w0, Steps(w0, trace))
  {
    hide Step, Sound;
    if trace == [] {
      InitiallyCoherent(w0);
      CoherentIsSound(w0, w0);
    } else {
      var n := |trace| - 1;
      StepsSound(w0, trace[..n]);
      StepSound(w0, Steps(w0, trace[..n]), trace[n].0, trace[n].1);
    }
  }

  lemma CoherentIsSound(w0: World, w: World)
    requires Coherent(w0, w)
    ensures Sound(w0, w)
  {
  }

  lemma StepCoherent(w0: World, w: World, p: Pid, e: Event)
    requires Coherent(w0, w) && NoReplace(w)
    ensures Coherent(w0, Step(w, p, e)) && NoReplace(Step(w, p, e))
    ensures w.dest.Some? ==> Step(w, p, e).dest == w.dest
  {
    hide Step, ProcSound, HasPublished;
    var w' := Step(w, p, e);
    StepSound(w0, w, p, e);
    StepFramed(w, p, e);
    if w.dest.Some? && w'.dest != w.dest {
      DestStable(w, p, e);
    }
    if p in w.procs {
      StepKeepsSelf(w, p, e);
    }
    forall q | q in w.procs && q != p ensures ProcOk(w', q) {
      StepKeepsOther(w, w', p, q);
    }
  }

  lemma InitiallyCoherent(w: World)
    requires Initial(w)
    ensures Coherent(w, w)
  {
  }

  lemma {:induction false} StepsCoherent(w0: World, trace: seq<(Pid, Event)>)
    requires Initial(w0) && NoReplace(w0)
    ensures Coherent(w0, Steps(w0, trace)) && NoReplace(Steps(w0, trace))
  {
    hide Step, Coherent;
    if trace == [] {
      InitiallyCoherent(w0);
    } else {
      var n := |trace| - 1;
      StepsCoherent(w0, trace[..n]);
      StepCoherent(w0, Steps(w0, trace[..n]), trace[n].0, trace[n].1);
    }
  }

  // ----- Over whole runs

  /** Once there, the destination never changes, whatever the processes still do. */
  lemma {:induction false} DestinationNeverChanges(w0: World, trace: seq<(Pid, Event)>, k: nat)
    requires Initial(w0) && NoReplace(w0) && k <= |trace|
    requires Steps(w0, trace[..k]).dest.Some?
    ensures Steps(w0, trace).dest == Steps(w0, trace[..k]).dest
    decreases |trace|
  {
    hide Step, Coherent, NoReplace, Initial;
    var n := |trace| - 1;
    if k == |trace| {
      assert trace[..k] == trace;
    } else {
      assert trace[..n][..k] == trace[..k];
      DestinationNeverChanges(w0, trace[..n], k);
      StepsCoherent(w0, trace[..n]);
      StepCoherent(w0, Steps(w0, trace[..n]), trace[n].0, trace[n].1);
    }
  }

  /** What became of the key of a process that has ended. */
  ghost predicate KeyEndsWell(w: World, p: Pid)
    requires p in w.procs
  {
    var proc := w.procs[p];
    match proc.phase
    case Succeeded => HoldsActiveKey(w, proc)
    case Failed(why) => if why == WasRevoked then HoldsRevokedKey(w, proc) else HoldsActiveKey(w, proc)
    case FailedInClosing(why) => if why == WasRevoked then HoldsRevokedKey(w, proc) else HoldsActiveKey(w, proc)
    case FailedAfterPublish => HoldsActiveKey(w, proc)
    case Refused => proc.key == None
    case Dead(revoked) => proc.key.Some? ==> if revoked then HoldsRevokedKey(w, proc) else HoldsActiveKey(w, proc)
    case _ => true
  }

  /** What a process that has ended leaves behind. */
  ghost predicate EndedWell(w: World, p: Pid)
    requires p in w.procs
  {
    KeyEndsWell(w, p) && (w.procs[p].phase in {Succeeded, FailedAfterPublish} ==> InDestination(w, p))
  }

  predicate HoldsRevokedKey(w: World, proc: Proc) {
    proc.key.Some? && proc.key.value in w.keys && w.keys[proc.key.value] == Revoked
  }

  predicate HoldsActiveKey(w: World, proc: Proc) {
    proc.key.Some? && proc.key.value in w.keys && w.keys[proc.key.value] == Active
  }

  /**
   * In any interleaving with anything raising: a process that succeeds leaves
   * its key active and in the destination; one that ends saying it revoked its
   * key has revoked it; the key of any other is revoked only if that was
   * confirmed before its last step; one that was refused minted none; and what
   * the destination gained is one whole key.
   */
  lemma RunsEndWell(w0: World, trace: seq<(Pid, Event)>)
    requires Initial(w0) && NoReplace(w0)
    ensures var w := Steps(w0, trace);
      && (forall p :: p in w.procs ==> EndedWell(w, p))
      && (w.dest == w0.dest
          || exists p :: p in w.procs && w.procs[p].key.Some? && w.dest == Some(Data(w.procs[p].key.value)))
  {
    StepsCoherent(w0, trace);
    var w := Steps(w0, trace);
    forall p | p in w.procs ensures EndedWell(w, p) {
      assert ProcOk(w, p);
    }
  }

  /** So it is with any processes told to replace, except that the destination may have moved on. */
  lemma KeysEndWell(w0: World, trace: seq<(Pid, Event)>)
    requires Initial(w0)
    ensures var w := Steps(w0, trace);
      && (forall p :: p in w.procs ==> KeyEndsWell(w, p))
      && (w.dest == w0.dest
          || exists p :: p in w.procs && w.procs[p].key.Some? && w.dest == Some(Data(w.procs[p].key.value)))
  {
    StepsSound(w0, trace);
    var w := Steps(w0, trace);
    forall p | p in w.procs ensures KeyEndsWell(w, p) {
      assert ProcSound(w, p);
    }
  }

  // ----- Who the destination belongs to, whatever the processes are told

  /** Entry `i` of the trace puts the key of `p` in the destination: over a file there, only when told to. */
  ghost predicate Publishes(w0: World, trace: seq<(Pid, Event)>, i: nat, p: Pid) {
    i < |trace| && trace[i] == (p, Go)
    && var w := Steps(w0, trace[..i]);
       p in w.procs && w.procs[p].phase == Written && (w.dest.None? || w.procs[p].replace)
  }

  lemma PublishesEarlier(w0: World, trace: seq<(Pid, Event)>, i: nat, p: Pid)
    requires i + 1 < |trace|
    ensures Publishes(w0, trace[..|trace| - 1], i, p) <==> Publishes(w0, trace, i, p)
  {
    assert trace[..|trace| - 1][..i] == trace[..i];
  }

  /** One step's publication is the only thing that moves the destination, and it leaves the whole key there. */
  lemma StepPublishes(w: World, p: Pid, e: Event)
    requires p in w.procs ==> ProcSound(w, p)
    ensures var w' := Step(w, p, e);
      if e == Go && p in w.procs && w.procs[p].phase == Written && (w.dest.None? || w.procs[p].replace)
      then p in w'.procs && InDestination(w', p) && HasPublished(w'.procs[p].phase)
      else w'.dest == w.dest
           && (p in w.procs ==>
                 p in w'.procs && (HasPublished(w'.procs[p].phase) ==> HasPublished(w.procs[p].phase)))
  {
    hide StepWrite;
    if p in w.procs && w.procs[p].phase.Writing? && e.Write? && w.procs[p].key.Some? && p in w.temps {
      WriteStaysHome(w, p, w.procs[p].phase.written, e.count);
    }
  }

  /** Nothing after entry `i` puts a key in the destination. */
  ghost predicate NoneAfter(w0: World, trace: seq<(Pid, Event)>, i: nat) {
    forall j: nat, q :: i < j ==> !Publishes(w0, trace, j, q)
  }

  /** A key once minted stays its process's. */
  lemma KeyStays(w: World, p: Pid, e: Event, q: Pid)
    requires q in w.procs && w.procs[q].key.Some? && ProcSound(w, q)
    ensures var w' := Step(w, p, e); q in w'.procs && w'.procs[q].key == w.procs[q].key
  {
    hide Step;
    StepFramed(w, p, e);
  }

  /**
   * Whatever the processes are told, in any interleaving: until some process
   * publishes, the destination is what it was at first; from then on it holds
   * the whole key of the one that published last.
   */
  lemma {:induction false} LastPublisherHolds(w0: World, trace: seq<(Pid, Event)>)
    requires Initial(w0)
    ensures (forall i: nat, p :: !Publishes(w0, trace, i, p)) ==> Steps(w0, trace).dest == w0.dest
    ensures forall i: nat, p :: Publishes(w0, trace, i, p) && NoneAfter(w0, trace, i) ==>
      p in Steps(w0, trace).procs && InDestination(Steps(w0, trace), p)
  {
    hide Step, Publishes, ProcSound, InDestination;
    forall i: nat, p | Publishes(w0, trace, i, p) ensures i < |trace| {
      PublishesWithin(w0, trace, i, p);
    }
    if trace != [] {
      var n := |trace| - 1;
      var t, w, w' := trace[..n], Steps(w0, trace[..n]), Steps(w0, trace);
      var q, e := trace[n].0, trace[n].1;
      LastPublisherHolds(w0, t);
      StepsSound(w0, t);
      StepPublishes(w, q, e);
      LastEntryPublishes(w0, trace);
      forall i: nat, p | i < n ensures Publishes(w0, t, i, p) <==> Publishes(w0, trace, i, p) {
        PublishesEarlier(w0, trace, i, p);
      }
      forall i: nat, p | Publishes(w0, trace, i, p) && NoneAfter(w0, trace, i)
        ensures p in w'.procs && InDestination(w', p)
      {
        PublishesWithin(w0, trace, i, p);
        if i < n {
          assert NoneAfter(w0, t, i) by {
            forall j: nat, r | i < j ensures !Publishes(w0, t, j, r) {
              if Publishes(w0, t, j, r) {
                PublishesWithin(w0, t, j, r);
              }
            }
          }
          HoldingGoesOn(w, q, e, p);
        }
      }
      if forall i: nat, p :: !Publishes(w0, trace, i, p) {
        forall i: nat, p ensures !Publishes(w0, t, i, p) {
          if Publishes(w0, t, i, p) {
            PublishesWithin(w0, t, i, p);
          }
        }
      }
    }
  }

  lemma HoldingGoesOn(w: World, q: Pid, e: Event, p: Pid)
    requires p in w.procs && InDestination(w, p) && ProcSound(w, p) && Step(w, q, e).dest == w.dest
    ensures p in Step(w, q, e).procs && InDestination(Step(w, q, e), p)
  {
    hide Step, ProcSound;
    KeyStays(w, q, e, p);
  }

  lemma PublishesWithin(w0: World, trace: seq<(Pid, Event)>, i: nat, p: Pid)
    requires Publishes(w0, trace, i, p)
    ensures i < |trace| && trace[i] == (p, Go)
  {
  }

  lemma LastEntryPublishes(w0: World, trace: seq<(Pid, Event)>)
    requires trace != []
    ensures var n := |trace| - 1; var w, q, e := Steps(w0, trace[..n]), trace[n].0, trace[n].1;
      Publishes(w0, trace, n, q)
      <==> e == Go && q in w.procs && w.procs[q].phase == Written && (w.dest.None? || w.procs[q].replace)
  {
  }

  lemma NobodyHasPublished(w0: World, p: Pid)
    requires Initial(w0) && p in w0.procs
    ensures !HasPublished(w0.procs[p].phase)
  {
  }

  /** A process whose run says it has published did so at one entry of the trace, and at no other. */
  lemma {:induction false} PublishedOnce(w0: World, trace: seq<(Pid, Event)>, p: Pid)
    requires Initial(w0) && p in w0.procs
    ensures p in Steps(w0, trace).procs
    ensures HasPublished(Steps(w0, trace).procs[p].phase) ==> exists i: nat :: Publishes(w0, trace, i, p)
    ensures forall i: nat :: Publishes(w0, trace, i, p) ==> PastPublishing(Steps(w0, trace).procs[p].phase)
    ensures forall i: nat, j: nat :: Publishes(w0, trace, i, p) && Publishes(w0, trace, j, p) ==> i == j
  {
    hide Step, Publishes, ProcSound, InDestination, HasPublished, PastPublishing;
    if trace == [] {
      forall i: nat | Publishes(w0, trace, i, p) ensures i < |trace| {
        PublishesWithin(w0, trace, i, p);
      }
      NobodyHasPublished(w0, p);
    } else {
      var n := |trace| - 1;
      var t, w, w' := trace[..n], Steps(w0, trace[..n]), Steps(w0, trace);
      var q, e := trace[n].0, trace[n].1;
      PublishedOnce(w0, t, p);
      StepsSound(w0, t);
      StepFramed(w, q, e);
      StepPublishes(w, q, e);
      LastEntryPublishes(w0, trace);
      NeverBack(w, q, e, p);
      forall i: nat ensures Publishes(w0, trace, i, p) ==> i <= n && trace[i].0 == p
                    ensures i < n ==> (Publishes(w0, t, i, p) <==> Publishes(w0, trace, i, p))
                    ensures Publishes(w0, t, i, p) ==> i < n
      {
        if Publishes(w0, trace, i, p) {
          PublishesWithin(w0, trace, i, p);
        }
        if Publishes(w0, t, i, p) {
          PublishesWithin(w0, t, i, p);
        }
        if i < n {
          PublishesEarlier(w0, trace, i, p);
        }
      }
    }
  }

  /** Phases of a process that has published and gone on from there. */
  predicate PastPublishing(phase: Phase) {
    || HasPublished(phase) || phase == Cleaning || phase == Revoking || phase.Leaving? || Ended(phase)
  }

  lemma NeverBack(w: World, q: Pid, e: Event, p: Pid)
    requires p in w.procs && ProcSound(w, p)
    ensures p in Step(w, q, e).procs
    ensures var before, after := w.procs[p].phase, Step(w, q, e).procs[p].phase;
      && (before == Written ==> !PastPublishing(before))
      && (PastPublishing(before) ==> PastPublishing(after))
      && (HasPublished(after) ==> PastPublishing(after))
      && (q != p ==> after == before)
  {
    hide StepWrite, Publish, ProcSound;
    StepFramed(w, q, e);
  }

  /** Once there, the destination stays there. */
  lemma {:induction false} DestStaysThere(w0: World, trace: seq<(Pid, Event)>, k: nat)
    requires Initial(w0) && k <= |trace| && Steps(w0, trace[..k]).dest.Some?
    ensures Steps(w0, trace).dest.Some?
    decreases |trace|
  {
    hide Step;
    if k == |trace| {
      assert trace[..k] == trace;
    } else {
      var n := |trace| - 1;
      assert trace[..n][..k] == trace[..k];
      DestStaysThere(w0, trace[..n], k);
      StepFramed(Steps(w0, trace[..n]), trace[n].0, trace[n].1);
    }
  }

  lemma LaterReplaces(w0: World, trace: seq<(Pid, Event)>, i: nat, p: Pid, j: nat, q: Pid)
    requires Initial(w0) && p in w0.procs && i < j
    requires Publishes(w0, trace, i, p) && Publishes(w0, trace, j, q)
    ensures q in w0.procs && w0.procs[q].replace && q != p
  {
    hide Step, ProcSound, InDestination, Initial;
    StepsSound(w0, trace[..j]);
    PublishedHolds(w0, trace, i, p);
    assert trace[..j][..i + 1] == trace[..i + 1];
    DestStaysThere(w0, trace[..j], i + 1);
    if q == p {
      PublishedOnce(w0, trace, p);
      assert false;
    }
  }

  lemma PublishedHolds(w0: World, trace: seq<(Pid, Event)>, i: nat, p: Pid)
    requires Initial(w0) && Publishes(w0, trace, i, p)
    ensures Steps(w0, trace[..i + 1]).dest.Some?
  {
    hide Step, ProcSound;
    StepsSound(w0, trace[..i]);
    StepPublishes(Steps(w0, trace[..i]), p, Go);
    assert trace[..i + 1][..i] == trace[..i];
  }

  /** The last publication after an entry that is not the last. */
  lemma LastAfter(w0: World, trace: seq<(Pid, Event)>, i: nat) returns (j: nat, q: Pid)
    requires !NoneAfter(w0, trace, i)
    ensures i < j && Publishes(w0, trace, j, q) && NoneAfter(w0, trace, j)
    decreases |trace| - i
  {
    hide Publishes;
    j, q :| i < j && Publishes(w0, trace, j, q);
    PublishesWithin(w0, trace, j, q);
    if !NoneAfter(w0, trace, j) {
      j, q := LastAfter(w0, trace, j);
    }
  }

  /**
   * A process that has published still has its active key in the destination
   * exactly when none published after it, and one that did was told to replace.
   */
  lemma SucceededUnlessReplaced(w0: World, trace: seq<(Pid, Event)>, p: Pid, i: nat)
    requires Initial(w0) && p in w0.procs && Publishes(w0, trace, i, p)
    ensures p in Steps(w0, trace).procs
    ensures InDestination(Steps(w0, trace), p) <==> NoneAfter(w0, trace, i)
    ensures Steps(w0, trace).procs[p].phase == Succeeded ==> HoldsActiveKey(Steps(w0, trace), Steps(w0, trace).procs[p])
    ensures forall j: nat, q :: i < j && Publishes(w0, trace, j, q) ==> q in w0.procs && w0.procs[q].replace && q != p
  {
    hide Steps, Publishes, NoneAfter, HoldsActiveKey;
    var w := Steps(w0, trace);
    PublishedOnce(w0, trace, p);
    LastPublisherHolds(w0, trace);
    KeysEndWell(w0, trace);
    PublishesWithin(w0, trace, i, p);
    forall j: nat, q | i < j && Publishes(w0, trace, j, q)
      ensures q in w0.procs && w0.procs[q].replace && q != p
    {
      PublishesWithin(w0, trace, j, q);
      LaterReplaces(w0, trace, i, p, j, q);
    }
    if !NoneAfter(w0, trace, i) {
      var j, q := LastAfter(w0, trace, i);
      StepsSound(w0, trace);
      if InDestination(w, p) {
        DataDecides(w.procs[p].key.value, w.procs[q].key.value);
        assert false;
      }
    }
  }

  /**
   * A run that succeeded has its key active, and in the destination unless a
   * process told to replace published after it did.
   */
  lemma SuccessHolds(w0: World, trace: seq<(Pid, Event)>, p: Pid)
    requires Initial(w0) && p in w0.procs
    requires var w := Steps(w0, trace); p in w.procs && w.procs[p].phase == Succeeded
    ensures var w := Steps(w0, trace);
      && HoldsActiveKey(w, w.procs[p])
      && exists i: nat :: Publishes(w0, trace, i, p)
           && (!InDestination(w, p)
               <==> exists j: nat, q :: i < j && Publishes(w0, trace, j, q) && q in w0.procs && w0.procs[q].replace)
  {
    hide Steps, Publishes, HoldsActiveKey, InDestination;
    PublishedOnce(w0, trace, p);
    var i: nat :| Publishes(w0, trace, i, p);
    SucceededUnlessReplaced(w0, trace, p, i);
    if j: nat, q :| i < j && Publishes(w0, trace, j, q) {
      assert w0.procs[q].replace;
    }
  }

  // ----- What is left of the temporary file

  /** Removing the temporary file after a failure was what raised. */
  ghost predicate RemovalRaised(w0: World, trace: seq<(Pid, Event)>, p: Pid) {
    exists i: nat :: RemovalRaisedAt(w0, trace, i, p)
  }

  ghost predicate RemovalRaisedAt(w0: World, trace: seq<(Pid, Event)>, i: nat, p: Pid) {
    i < |trace| && trace[i] == (p, Raise)
    && var w := Steps(w0, trace[..i]);
       p in w.procs && w.procs[p].phase == Cleaning
  }

  lemma RemovalRaisedLater(w0: World, trace: seq<(Pid, Event)>, p: Pid)
    requires trace != []
    ensures var n := |trace| - 1; var w := Steps(w0, trace[..n]);
      RemovalRaised(w0, trace, p)
      <==> (RemovalRaised(w0, trace[..n], p)
            || (trace[n] == (p, Raise) && p in w.procs && w.procs[p].phase == Cleaning))
  {
    hide Steps;
    var n := |trace| - 1;
    forall i: nat | i < n ensures RemovalRaisedAt(w0, trace[..n], i, p) <==> RemovalRaisedAt(w0, trace, i, p) {
      assert trace[..n][..i] == trace[..i];
    }
    if i: nat :| RemovalRaisedAt(w0, trace[..n], i, p) {
      assert RemovalRaisedAt(w0, trace, i, p);
    }
    if i: nat :| RemovalRaisedAt(w0, trace, i, p) {
      assert i < n ==> RemovalRaisedAt(w0, trace[..n], i, p);
    }
    assert RemovalRaisedAt(w0, trace, n, p) <==>
      trace[n] == (p, Raise) && p in Steps(w0, trace[..n]).procs && Steps(w0, trace[..n]).procs[p].phase == Cleaning;
  }

  /** Whether a process has a temporary file about, and whether it has given up removing one. */
  predicate TempFits(phase: Phase, there: bool, raised: bool) {
    match phase
    case Writing(_) => there && !raised
    case Written => there && !raised
    case Linked => there && !raised
    case Cleaning => there && !raised
    case Revoking => there <==> raised
    case Leaving(_) => there <==> raised
    case Failed(_) => there <==> raised
    case FailedInClosing(_) => there <==> raised
    case Dead(_) => true
    case _ => !there && !raised
  }

  lemma StepTemp(w: World, p: Pid, e: Event, raised: bool)
    requires p in w.procs && ProcSound(w, p) && TempFits(w.procs[p].phase, p in w.temps, raised)
    ensures var w' := Step(w, p, e);
      p in w'.procs
      && TempFits(w'.procs[p].phase, p in w'.temps, raised || (e == Raise && w.procs[p].phase == Cleaning))
  {
    hide StepWrite, ProcSound;
    if w.procs[p].phase.Writing? && e.Write? && w.procs[p].key.Some? && p in w.temps {
      WriteKeepsTemp(w, p, w.procs[p].phase.written, e.count);
    }
  }

  lemma WriteKeepsTemp(w: World, p: Pid, n: nat, count: nat)
    requires p in w.procs && w.procs[p].key.Some? && p in w.temps
    ensures var w' := StepWrite(w, p, n, count);
      && p in w'.procs && p in w'.temps
      && (w'.procs[p].phase == Written || w'.procs[p].phase == Cleaning || w'.procs[p].phase.Writing?)
  {
  }

  lemma StartsWithout(w0: World, p: Pid)
    requires Initial(w0) && p in w0.procs && p !in w0.temps
    ensures TempFits(w0.procs[p].phase, p in w0.temps, false)
  {
  }

  lemma {:induction false} TempsFit(w0: World, trace: seq<(Pid, Event)>, p: Pid)
    requires Initial(w0) && p in w0.procs && p !in w0.temps
    ensures var w := Steps(w0, trace);
      p in w.procs && TempFits(w.procs[p].phase, p in w.temps, RemovalRaised(w0, trace, p))
  {
    hide Step, TempFits, ProcSound;
    if trace == [] {
      StartsWithout(w0, p);
      assert !RemovalRaised(w0, trace, p);
    } else {
      var n := |trace| - 1;
      var w := Steps(w0, trace[..n]);
      TempsFit(w0, trace[..n], p);
      StepsSound(w0, trace[..n]);
      RemovalRaisedLater(w0, trace, p);
      if trace[n].0 == p {
        StepTemp(w, p, trace[n].1, RemovalRaised(w0, trace[..n], p));
      } else {
        StepFramed(w, trace[n].0, trace[n].1);
      }
    }
  }

  /**
   * A run that ends alive and began without a temporary file of its name leaves
   * one behind exactly when removing it, after a failure, is what raised.
   */
  lemma TempLeftIff(w0: World, trace: seq<(Pid, Event)>, p: Pid)
    requires Initial(w0) && p in w0.procs && p !in w0.temps
    requires var w := Steps(w0, trace); p in w.procs && Ended(w.procs[p].phase) && !w.procs[p].phase.Dead?
    ensures p in Steps(w0, trace).temps <==> RemovalRaised(w0, trace, p)
  {
    hide Steps, RemovalRaised;
    TempsFit(w0, trace, p);
  }

  // ----- Outcomes and what brought them about

  /** Entry `i` of the trace is event `e` of process `p`, which is then in this phase. */
  ghost predicate Takes(w0: World, trace: seq<(Pid, Event)>, i: nat, p: Pid, e: Event, phase: Phase) {
    i < |trace| && trace[i] == (p, e) && p in Steps(w0, trace[..i]).procs
      && Steps(w0, trace[..i]).procs[p].phase == phase
  }

  /** Turns a run can take that it does not take back. */
  datatype Turn = BecomesRevoked | FailsToClose | FailsOverMessage | Dies | Hears(why: Failure)

  predicate Shows(turn: Turn, phase: Phase) {
    match turn
    case BecomesRevoked => IsRevoked(phase)
    case FailsToClose => phase == FailedAfterPublish
    case FailsOverMessage => phase.FailedInClosing?
    case Dies => phase.Dead?
    case Hears(why) => Message(phase) == Some(why)
  }

  /** What a process that failed ends with, if it does not die first. */
  function Message(phase: Phase): Option<Failure> {
    match phase
    case Leaving(why) => Some(why)
    case Failed(why) => Some(why)
    case FailedInClosing(why) => Some(why)
    case _ => None
  }

  /** The one event that brings each of them about. */
  predicate Causes(turn: Turn, e: Event, phase: Phase) {
    match turn
    case BecomesRevoked => e == Answer(true) && phase == Revoking
    case FailsToClose => e == Raise && phase == Closing
    case FailsOverMessage => e == Raise && phase.Leaving?
    case Dies => e == Die && !Ended(phase)
    case Hears(why) => phase == Revoking && e == Tells(why)
  }

  /** What the key store does for a process to go on with this message. */
  function Tells(why: Failure): Event {
    match why
    case WasRevoked => Answer(true)
    case NotRevoked => Answer(false)
    case RevokeRaised => Raise
  }

  lemma StepIntoTurn(w: World, p: Pid, e: Event, q: Pid, turn: Turn)
    requires q in w.procs && ProcSound(w, q)
    ensures q in Step(w, p, e).procs
    ensures w.procs[q].phase.Dead? ==> Step(w, p, e).procs[q].phase.Dead?
    ensures (turn.Hears? && Step(w, p, e).procs[q].phase.Dead?)
      || (Shows(turn, Step(w, p, e).procs[q].phase)
          <==> Shows(turn, w.procs[q].phase) || (p == q && Causes(turn, e, w.procs[q].phase)))
  {
    hide Step, ProcSound, Shows, Causes;
    StepFramed(w, p, e);
    if p == q {
      OwnTurn(w, p, e, turn);
    }
  }

  lemma OwnTurn(w: World, p: Pid, e: Event, turn: Turn)
    requires p in w.procs && ProcSound(w, p)
    ensures p in Step(w, p, e).procs
    ensures var before, after := w.procs[p].phase, Step(w, p, e).procs[p].phase;
      && (before.Dead? ==> after.Dead?)
      && ((turn.Hears? && after.Dead?) || (Shows(turn, after) <==> Shows(turn, before) || Causes(turn, e, before)))
  {
    hide StepOn, ProcSound;
    if turn.Hears? {
      OnlyRevokingTells(w, p, e, turn.why);
    } else {
      OnlyRevokingAnswers(w, p, e);
    }
  }

  lemma OnlyRevokingTells(w: World, p: Pid, e: Event, why: Failure)
    requires p in w.procs && ProcSound(w, p)
    ensures p in StepOn(w, p, e).procs
    ensures var before, after := w.procs[p].phase, StepOn(w, p, e).procs[p].phase;
      !Ended(before) && e != Die && e != Raise ==>
        !after.Dead? && (Shows(Hears(why), after) <==> Shows(Hears(why), before) || Causes(Hears(why), e, before))
  {
    hide StepOn;
    OnlyRevokingAnswers(w, p, e);
    MessageAfter(w, p, e);
  }

  lemma MessageAfter(w: World, p: Pid, e: Event)
    requires p in w.procs && ProcSound(w, p)
    ensures p in StepOn(w, p, e).procs
    ensures var before, after := w.procs[p].phase, StepOn(w, p, e).procs[p].phase;
      Message(after) == if before == Revoking && e == Answer(true) then Some(WasRevoked)
                        else if before == Revoking && e == Answer(false) then Some(NotRevoked)
                        else Message(before)
  {
    hide StepWrite, Publish;
    if w.procs[p].phase.Writing? && e.Write? && w.procs[p].key.Some? && p in w.temps {
      WriteStaysHome(w, p, w.procs[p].phase.written, e.count);
    }
    if w.procs[p].phase == Written && p in w.temps {
      PublishLeadsOn(w, p);
    }
  }

  lemma OnlyRevokingAnswers(w: World, p: Pid, e: Event)
    requires p in w.procs && ProcSound(w, p)
    ensures p in StepOn(w, p, e).procs
    ensures var before, after := w.procs[p].phase, StepOn(w, p, e).procs[p].phase;
      !Ended(before) && e != Die && e != Raise ==>
        && after != FailedAfterPublish && !after.Dead? && !after.FailedInClosing?
        && (IsRevoked(after) <==> IsRevoked(before) || (e == Answer(true) && before == Revoking))
  {
    hide StepWrite, Publish;
    if w.procs[p].phase.Writing? && e.Write? && w.procs[p].key.Some? && p in w.temps {
      WriteStaysHome(w, p, w.procs[p].phase.written, e.count);
    }
    if w.procs[p].phase == Written && p in w.temps {
      PublishLeadsOn(w, p);
    }
  }

  lemma PublishLeadsOn(w: World, p: Pid)
    requires p in w.procs && p in w.temps
    ensures p in Publish(w, p).procs
    ensures var phase := Publish(w, p).procs[p].phase; phase == Linked || phase == Tidied || phase == Cleaning
  {
  }

  lemma TakesEarlier(w0: World, trace: seq<(Pid, Event)>, i: nat, p: Pid, e: Event, phase: Phase)
    requires trace != [] && i < |trace| - 1
    ensures Takes(w0, trace[..|trace| - 1], i, p, e, phase) <==> Takes(w0, trace, i, p, e, phase)
  {
    assert trace[..|trace| - 1][..i] == trace[..i];
  }

  ghost predicate Caused(w0: World, trace: seq<(Pid, Event)>, p: Pid, turn: Turn) {
    exists i: nat, e, phase :: Takes(w0, trace, i, p, e, phase) && Causes(turn, e, phase)
  }

  lemma CausedLater(w0: World, trace: seq<(Pid, Event)>, p: Pid, turn: Turn)
    requires trace != []
    ensures var n := |trace| - 1; var before := Steps(w0, trace[..n]);
      Caused(w0, trace, p, turn)
      <==> (Caused(w0, trace[..n], p, turn)
            || (trace[n].0 == p && p in before.procs && Causes(turn, trace[n].1, before.procs[p].phase)))
  {
    hide Steps, Causes;
    var n := |trace| - 1;
    var before := Steps(w0, trace[..n]);
    forall i: nat, e,
      phase | i < n ensures Takes(w0, trace[..n], i, p, e, phase) <==> Takes(w0, trace, i, p, e, phase) {
      TakesEarlier(w0, trace, i, p, e, phase);
    }
    if trace[n].0 == p && p in before.procs && Causes(turn, trace[n].1, before.procs[p].phase) {
      assert Takes(w0, trace, n, p, trace[n].1, before.procs[p].phase);
    }
    if Caused(w0, trace[..n], p, turn) {
      var i: nat, e, phase :| Takes(w0, trace[..n], i, p, e, phase) && Causes(turn, e, phase);
      assert Takes(w0, trace, i, p, e, phase);
    }
    if Caused(w0, trace, p, turn) {
      var i: nat, e, phase :| Takes(w0, trace, i, p, e, phase) && Causes(turn, e, phase);
      assert i < n ==> Takes(w0, trace[..n], i, p, e, phase);
    }
  }

  lemma NoTurnYet(turn: Turn)
    ensures !Shows(turn, Starting)
  {
  }

  /**
   * A run has taken a turn exactly when the trace holds the event that brings it
   * about; a process that died is past its message.
   */
  lemma {:induction false} TurnIffCaused(w0: World, trace: seq<(Pid, Event)>, p: Pid, turn: Turn)
    requires Initial(w0) && p in w0.procs
    ensures p in Steps(w0, trace).procs
      && ((turn.Hears? && Steps(w0, trace).procs[p].phase.Dead?)
          || (Shows(turn, Steps(w0, trace).procs[p].phase) <==> Caused(w0, trace, p, turn)))
  {
    hide Step, Causes, Shows, ProcSound;
    if trace == [] {
      NoTurnYet(turn);
    } else {
      var n := |trace| - 1;
      var before := Steps(w0, trace[..n]);
      TurnIffCaused(w0, trace[..n], p, turn);
      StepsSound(w0, trace[..n]);
      StepIntoTurn(before, trace[n].0, trace[n].1, p, turn);
      CausedLater(w0, trace, p, turn);
    }
  }

  /** Closing the key store raised, after the write had gone through or over the message of a failure. */
  ghost predicate CloseRaised(w0: World, trace: seq<(Pid, Event)>, p: Pid) {
    exists i: nat, phase :: Takes(w0, trace, i, p, Raise, phase) && (phase == Closing || phase.Leaving?)
  }

  ghost predicate Died(w0: World, trace: seq<(Pid, Event)>, p: Pid) {
    exists i: nat, phase :: Takes(w0, trace, i, p, Die, phase) && !Ended(phase)
  }

  /** The store confirmed the revocation the process asked for. */
  ghost predicate RevocationAnswered(w0: World, trace: seq<(Pid, Event)>, p: Pid) {
    exists i: nat :: Takes(w0, trace, i, p, Answer(true), Revoking)
  }

  /** The run ended as its operator is told: the key in use, revoked, or reported as perhaps still active. */
  predicate Accounted(w: World, p: Pid)
    requires p in w.procs
  {
    var phase := w.procs[p].phase;
    phase == Succeeded || phase.Failed?
  }

  /**
   * A run that minted a key and ended tells its operator what became of it (in
   * use, revoked, perhaps still active, or the revocation's own exception)
   * exactly when closing the store did not raise and the process did not die.
   */
  lemma AccountedIff(w0: World, trace: seq<(Pid, Event)>, p: Pid)
    requires Initial(w0) && p in w0.procs
    requires var w := Steps(w0, trace); p in w.procs && w.procs[p].key.Some? && Ended(w.procs[p].phase)
    ensures Accounted(Steps(w0, trace), p)
       <==> !CloseRaised(w0, trace, p) && !Died(w0, trace, p)
  {
    hide Steps, Takes, Caused, Died, CloseRaised, Initial, Sound;
    ProcsAreSound(w0, trace, p);
    TurnIffCaused(w0, trace, p, FailsToClose);
    TurnIffCaused(w0, trace, p, FailsOverMessage);
    TurnIffCaused(w0, trace, p, Dies);
    CausesAre(w0, trace, p);
  }

  /**
   * Its key is revoked or its operator is told exactly when the store confirmed
   * a revocation, or neither a close that raised nor its death cut it short.
   */
  lemma RevokedOrAccountedIff(w0: World, trace: seq<(Pid, Event)>, p: Pid)
    requires Initial(w0) && p in w0.procs
    requires var w := Steps(w0, trace); p in w.procs && w.procs[p].key.Some? && Ended(w.procs[p].phase)
    ensures IsRevoked(Steps(w0, trace).procs[p].phase) || Accounted(Steps(w0, trace), p)
       <==> RevocationAnswered(w0, trace, p) || (!CloseRaised(w0, trace, p) && !Died(w0, trace, p))
  {
    hide Steps, Takes, Caused, Died, CloseRaised, RevocationAnswered, Initial;
    AccountedIff(w0, trace, p);
    TurnIffCaused(w0, trace, p, BecomesRevoked);
    CausesAre(w0, trace, p);
  }

  lemma ProcsAreSound(w0: World, trace: seq<(Pid, Event)>, p: Pid)
    requires Initial(w0) && p in w0.procs
    ensures p in Steps(w0, trace).procs && ProcSound(Steps(w0, trace), p)
  {
    hide Steps, ProcSound;
    StepsSound(w0, trace);
  }

  lemma CausesAre(w0: World, trace: seq<(Pid, Event)>, p: Pid)
    ensures Caused(w0, trace, p, FailsToClose) || Caused(w0, trace, p, FailsOverMessage) <==> CloseRaised(w0, trace, p)
    ensures Caused(w0, trace, p, Dies) <==> Died(w0, trace, p)
    ensures Caused(w0, trace, p, BecomesRevoked) <==> RevocationAnswered(w0, trace, p)
  {
    hide Takes;
    if i: nat, phase :| Takes(w0, trace, i, p, Raise, phase) && (phase == Closing || phase.Leaving?) {
      assert Causes(FailsToClose, Raise, phase) || Causes(FailsOverMessage, Raise, phase);
    }
    if i: nat, phase :| Takes(w0, trace, i, p, Die, phase) && !Ended(phase) {
      assert Causes(Dies, Die, phase);
    }
    if i: nat :| Takes(w0, trace, i, p, Answer(true), Revoking) {
      assert Causes(BecomesRevoked, Answer(true), Revoking);
    }
  }

  /** Closing the store raises after a good write: the key is published and active, and nothing is said of it. */
  lemma ActiveKeyUnreported(key: Secret)
    ensures exists trace :: Steps(Alone(None, map[], map[], Starting, None), trace)
                         == Alone(Some(Data(key)), map[], map[key := Active], FailedAfterPublish, Some(key))
  {
    hide Step;
    var w0 := Alone(None, map[], map[], Starting, None);
    var t := WritesItsKey(key);
    var data, active := Data(key), map[key := Active];
    AlonePublishes(key);
    AloneCloses(key);
    t := Then(w0, t, Go, Alone(Some(data), map[0 := data], active, Linked, Some(key)));
    t := Then(w0, t, Go, Alone(Some(data), map[], active, Tidied, Some(key)));
    t := Then(w0, t, Go, Alone(Some(data), map[], active, Closing, Some(key)));
    t := Then(w0, t, Raise, Alone(Some(data), map[], active, FailedAfterPublish, Some(key)));
  }

  lemma AloneCloses(key: Secret)
    ensures Step(Alone(Some(Data(key)), map[], map[key := Active], Tidied, Some(key)), 0, Go)
         == Alone(Some(Data(key)), map[], map[key := Active], Closing, Some(key))
    ensures Step(Alone(Some(Data(key)), map[], map[key := Active], Closing, Some(key)), 0, Raise)
         == Alone(Some(Data(key)), map[], map[key := Active], FailedAfterPublish, Some(key))
  {
    AloneEnters(Some(Data(key)), map[], map[key := Active], Tidied, Closing, Some(key));
    AloneEnters(Some(Data(key)), map[], map[key := Active], Closing, FailedAfterPublish, Some(key));
  }

  /** A destination takes at most one key: no two processes both succeed. */
  lemma AtMostOneSucceeds(w0: World, trace: seq<(Pid, Event)>, p: Pid, q: Pid)
    requires Initial(w0) && NoReplace(w0)
    requires var w := Steps(w0, trace);
      p in w.procs && q in w.procs && w.procs[p].phase == Succeeded && w.procs[q].phase == Succeeded
    ensures p == q
  {
    StepsCoherent(w0, trace);
    var w := Steps(w0, trace);
    assert ProcOk(w, p) && ProcOk(w, q);
    DataDecides(w.procs[p].key.value, w.procs[q].key.value);
  }

  // ----- A revoked key in the destination

  /** The process raised between the link and the end of its write. */
  ghost predicate RaisedAfterLink(w0: World, trace: seq<(Pid, Event)>, p: Pid) {
    exists i: nat :: Takes(w0, trace, i, p, Raise, Linked) || Takes(w0, trace, i, p, Raise, Tidied)
  }

  predicate OnTheWayOut(phase: Phase) {
    phase == Cleaning || phase == Revoking || phase.Leaving? || phase.Failed? || phase.FailedInClosing?
  }

  predicate KeptOut(phase: Phase) {
    phase == Starting || phase == Refused || phase.Dead?
  }

  /** How a process's key came to be in the destination, and where that process may be now. */
  ghost predicate Traced(w0: World, trace: seq<(Pid, Event)>, w: World, p: Pid)
    requires p in w.procs
  {
    var phase := w.procs[p].phase;
    && (w0.dest.Some? ==> w.dest.Some? && KeptOut(phase))
    && (InDestination(w, p) ==> HasPublished(phase) || phase == Dead(false) || RaisedAfterLink(w0, trace, p))
    && (RaisedAfterLink(w0, trace, p) ==> InDestination(w, p) && (OnTheWayOut(phase) || phase.Dead?))
  }

  /** What a step of a process does to its own standing. */
  lemma OwnStep(w: World, p: Pid, e: Event)
    requires p in w.procs && !w.procs[p].replace && ProcOk(w, p)
    ensures var w' := Step(w, p, e);
      && p in w'.procs
      && var before, after := w.procs[p].phase, w'.procs[p].phase;
      && (HasPublished(before) && !(e == Raise && (before == Linked || before == Tidied)) ==>
            HasPublished(after) || after == Dead(false))
      && (e == Raise && (before == Linked || before == Tidied) ==> OnTheWayOut(after))
      && (OnTheWayOut(before) ==> OnTheWayOut(after) || after.Dead?)
      && (before.Dead? ==> after == before)
      && (w.dest.Some? && KeptOut(before) ==> KeptOut(after))
      && (w'.dest != w.dest ==> HasPublished(after) && InDestination(w', p))
      && (w'.dest.None? ==> w.dest.None?)
  {
    hide StepWrite;
    if w.procs[p].phase.Writing? && e.Write? && w.procs[p].key.Some? && p in w.temps {
      WriteStaysHome(w, p, w.procs[p].phase.written, e.count);
    }
  }

  lemma WriteStaysHome(w: World, p: Pid, n: nat, count: nat)
    requires p in w.procs && w.procs[p].key.Some? && p in w.temps
    ensures var w' := StepWrite(w, p, n, count);
      && p in w'.procs && w'.dest == w.dest
      && (w'.procs[p].phase == Written || w'.procs[p].phase == Cleaning || w'.procs[p].phase.Writing?)
  {
  }

  lemma RaisedLater(w0: World, trace: seq<(Pid, Event)>, p: Pid)
    requires trace != []
    ensures var n := |trace| - 1; var before := Steps(w0, trace[..n]);
      RaisedAfterLink(w0, trace, p)
      <==> (RaisedAfterLink(w0, trace[..n], p)
            || (trace[n] == (p, Raise) && p in before.procs
              && (before.procs[p].phase == Linked || before.procs[p].phase == Tidied)))
  {
    hide Steps;
    var n := |trace| - 1;
    var before := Steps(w0, trace[..n]);
    forall i: nat,
      phase | i < n ensures Takes(w0, trace[..n], i, p, Raise, phase) <==> Takes(w0, trace, i, p, Raise, phase) {
      TakesEarlier(w0, trace, i, p, Raise, phase);
    }
    if trace[n] == (p, Raise) && p in before.procs {
      assert Takes(w0, trace, n, p, Raise, before.procs[p].phase);
    }
    if RaisedAfterLink(w0, trace[..n], p) {
      var i: nat :| Takes(w0, trace[..n], i, p, Raise, Linked) || Takes(w0, trace[..n], i, p, Raise, Tidied);
      assert Takes(w0, trace, i, p, Raise, Linked) || Takes(w0, trace, i, p, Raise, Tidied);
    }
    if RaisedAfterLink(w0, trace, p) {
      var i: nat :| Takes(w0, trace, i, p, Raise, Linked) || Takes(w0, trace, i, p, Raise, Tidied);
      assert i < n ==> Takes(w0, trace[..n], i, p, Raise, Linked) || Takes(w0, trace[..n], i, p, Raise, Tidied);
    }
  }

  /** A freshly minted key is in no destination: a file that was there at the start keeps everyone from minting. */
  lemma FreshKeyIsElsewhere(w0: World, w: World, p: Pid, key: Secret)
    requires Coherent(w0, w) && p in w.procs && w.procs[p].phase == Prepared && key !in w.keys
    requires w0.dest.Some? ==> KeptOut(w.procs[p].phase)
    ensures w.dest != Some(Data(key))
  {
    hide ProcSound;
    if w.dest == Some(Data(key)) {
      var q :| q in w.procs && w.procs[q].key.Some? && w.dest == Some(Data(w.procs[q].key.value));
      DataDecides(key, w.procs[q].key.value);
      KeyIsKnown(w, q);
      assert false;
    }
  }

  lemma KeyIsKnown(w: World, q: Pid)
    requires q in w.procs && ProcSound(w, q) && w.procs[q].key.Some?
    ensures w.procs[q].key.value in w.keys
  {
  }

  lemma OthersDestination(w0: World, w: World, w': World, p: Pid, q: Pid)
    requires Coherent(w0, w') && Framed(w, w', q) && p in w.procs && p != q
    requires w'.dest != w.dest ==> q in w'.procs && InDestination(w', q)
    requires w.dest.Some? ==> w'.dest == w.dest
    ensures p in w'.procs && w'.procs[p] == w.procs[p]
    ensures InDestination(w', p) <==> InDestination(w, p)
  {
    hide ProcOk;
    if w'.dest != w.dest && InDestination(w', p) {
      DataDecides(w'.procs[p].key.value, w'.procs[q].key.value);
      assert false;
    }
  }

  lemma TracedByOthers(w0: World, trace: seq<(Pid, Event)>, p: Pid)
    requires trace != [] && trace[|trace| - 1].0 != p
    requires var w := Steps(w0, trace[..|trace| - 1]);
      p in w.procs && Coherent(w0, w) && NoReplace(w) && Traced(w0, trace[..|trace| - 1], w, p)
    ensures p in Steps(w0, trace).procs && Traced(w0, trace, Steps(w0, trace), p)
  {
    hide Step, Coherent, RaisedAfterLink, Framed, InDestination, OnTheWayOut, HasPublished;
    var n := |trace| - 1;
    var w, q, e := Steps(w0, trace[..n]), trace[n].0, trace[n].1;
    var w' := Step(w, q, e);
    StepFramed(w, q, e);
    StepCoherent(w0, w, q, e);
    if q in w.procs {
      OwnStepIn(w0, w, q, e);
    } else {
      NobodySteps(w, q, e);
    }
    OthersDestination(w0, w, w', p, q);
    RaisedLater(w0, trace, p);
  }

  lemma NobodySteps(w: World, q: Pid, e: Event)
    requires q !in w.procs
    ensures Step(w, q, e) == w
  {
  }

  lemma OwnStepIn(w0: World, w: World, q: Pid, e: Event)
    requires Coherent(w0, w) && NoReplace(w) && q in w.procs
    ensures var w' := Step(w, q, e);
      q in w'.procs && (w'.dest != w.dest ==> HasPublished(w'.procs[q].phase) && InDestination(w', q))
        && (w'.dest.None? ==> w.dest.None?)
  {
    hide Step, ProcOk;
    OwnStep(w, q, e);
  }

  lemma TracedByItself(w0: World, trace: seq<(Pid, Event)>, p: Pid)
    requires trace != [] && trace[|trace| - 1].0 == p
    requires var w := Steps(w0, trace[..|trace| - 1]);
      p in w.procs && Coherent(w0, w) && NoReplace(w) && Traced(w0, trace[..|trace| - 1], w, p)
    ensures p in Steps(w0, trace).procs && Traced(w0, trace, Steps(w0, trace), p)
  {
    hide Step, ProcOk, RaisedAfterLink, OnTheWayOut, HasPublished, KeptOut;
    var n := |trace| - 1;
    var w, e := Steps(w0, trace[..n]), trace[n].1;
    var w' := Step(w, p, e);
    StepFramed(w, p, e);
    StepCoherent(w0, w, p, e);
    OwnStep(w, p, e);
    RaisedLater(w0, trace, p);
    LinkedHolds(w, p);
    if w'.procs[p].key != w.procs[p].key {
      FreshKeyIsElsewhere(w0, w, p, w'.procs[p].key.value);
    }
    OutIsNotIn(w.procs[p].phase);
  }

  lemma LinkedHolds(w: World, p: Pid)
    requires p in w.procs && ProcOk(w, p)
    ensures w.procs[p].phase == Linked || w.procs[p].phase == Tidied ==>
      InDestination(w, p) && HasPublished(w.procs[p].phase)
    ensures w.procs[p].phase == Prepared ==> w.procs[p].key == None
  {
  }

  lemma OutIsNotIn(phase: Phase)
    ensures OnTheWayOut(phase) || phase.Dead? ==> phase != Linked && phase != Tidied && phase != Prepared
  {
  }

  lemma {:induction false} AlwaysTraced(w0: World, trace: seq<(Pid, Event)>, p: Pid)
    requires Initial(w0) && NoReplace(w0) && p in w0.procs
    ensures p in Steps(w0, trace).procs && Traced(w0, trace, Steps(w0, trace), p)
  {
    hide Step, Coherent, NoReplace;
    if trace != [] {
      var n := |trace| - 1;
      AlwaysTraced(w0, trace[..n], p);
      StepsCoherent(w0, trace[..n]);
      if trace[n].0 == p {
        TracedByItself(w0, trace, p);
      } else {
        TracedByOthers(w0, trace, p);
      }
    }
  }

  /**
   * The destination holds a process's key and that key is revoked exactly when
   * the process raised after its link, before its write was over, and its
   * revocation was then answered with success.
   */
  lemma RevokedInDestinationIff(w0: World, trace: seq<(Pid, Event)>, p: Pid)
    requires Initial(w0) && NoReplace(w0) && p in w0.procs
    ensures var w := Steps(w0, trace);
      && p in w.procs && (w.procs[p].key.Some? ==> w.procs[p].key.value in w.keys)
      && (InDestination(w, p) && w.keys[w.procs[p].key.value] == Revoked
          <==> RaisedAfterLink(w0, trace, p) && RevocationAnswered(w0, trace, p))
  {
    hide Steps, RaisedAfterLink, RevocationAnswered, Caused, NoReplace, Initial;
    AlwaysTraced(w0, trace, p);
    ProcsAreSound(w0, trace, p);
    TurnIffCaused(w0, trace, p, BecomesRevoked);
    CausesAre(w0, trace, p);
  }

  /**
   * With no raise between a link and the end of its write, a destination the
   * processes filled never holds a revoked key.
   */
  lemma NoRevokedKeyInDestination(w0: World, trace: seq<(Pid, Event)>, key: Secret)
    requires Initial(w0) && NoReplace(w0)
    requires forall p :: p in w0.procs ==> !RaisedAfterLink(w0, trace, p)
    requires var w := Steps(w0, trace); w.dest != w0.dest && w.dest == Some(Data(key))
    ensures key in Steps(w0, trace).keys && Steps(w0, trace).keys[key] == Active
  {
    hide Steps, RaisedAfterLink, RevocationAnswered, ProcOk, NoReplace;
    StepsCoherent(w0, trace);
    var w := Steps(w0, trace);
    var p :| p in w.procs && w.procs[p].key.Some? && w.dest == Some(Data(w.procs[p].key.value));
    DataDecides(key, w.procs[p].key.value);
    RevokedInDestinationIff(w0, trace, p);
  }

  /** The destination can be left holding a revoked key: setting its mode raises after the link. */
  lemma RevokedKeyLeftBehind(key: Secret)
    ensures exists trace :: Steps(Alone(None, map[], map[], Starting, None), trace).dest == Some(Data(key))
                         && Steps(Alone(None, map[], map[], Starting, None), trace).keys == map[key := Revoked]
  {
    hide Step;
    var w0 := Alone(None, map[], map[], Starting, None);
    var t := WritesItsKey(key);
    var data, active := Data(key), map[key := Active];
    var w6 := Alone(Some(data), map[0 := data], active, Linked, Some(key));
    var w7 := Alone(Some(data), map[], active, Tidied, Some(key));
    var w8 := Alone(Some(data), map[], active, Revoking, Some(key));
    var w9 := Alone(Some(data), map[], map[key := Revoked], Leaving(WasRevoked), Some(key));
    AlonePublishes(key);
    AloneRevokes(key);
    t := Then(w0, t, Go, w6);
    t := Then(w0, t, Go, w7);
    t := Then(w0, t, Raise, w8);
    t := Then(w0, t, Answer(true), w9);
  }

  function Replacing(dest: string, temps: map<Pid, string>, keys: map<Secret, KeyState>, phase: Phase,
                     key: Option<Secret>): World {
    World(Some(dest), temps, keys, map[0 := Proc(true, phase, key)])
  }

  /** A lone run told to replace an existing file succeeds, with its key in that file and no temporary one left. */
  lemma LoneReplacement(previous: string, key: Secret)
    ensures exists trace :: Steps(Replacing(previous, map[], map[], Starting, None), trace)
                         == Replacing(Data(key), map[], map[key := Active], Succeeded, Some(key))
  {
    hide Step;
    var w0, active, data := Replacing(previous, map[], map[], Starting, None), map[key := Active], Data(key);
    ReplacingStarts(previous, key);
    ReplacingWrites(previous, key);
    ReplacingPublishes(previous, key);
    ReplacingCloses(key);
    var t := [];
    t := Then(w0, t, Go, Replacing(previous, map[], map[], Prepared, None));
    t := Then(w0, t, Mint(key), Replacing(previous, map[], active, Minted, Some(key)));
    t := Then(w0, t, Go, Replacing(previous, map[0 := ""], active, Writing(0), Some(key)));
    t := Then(w0, t, Write(|data|), Replacing(previous, map[0 := data], active, Writing(|data|), Some(key)));
    t := Then(w0, t, Write(1), Replacing(previous, map[0 := data], active, Written, Some(key)));
    t := Then(w0, t, Go, Replacing(data, map[], active, Tidied, Some(key)));
    t := Then(w0, t, Go, Replacing(data, map[], active, Closing, Some(key)));
    t := Then(w0, t, Go, Replacing(data, map[], active, Succeeded, Some(key)));
  }

  lemma ReplacingEnters(dest: string, temps: map<Pid, string>, keys: map<Secret, KeyState>, from: Phase, to: Phase,
                        key: Option<Secret>)
    ensures Enter(Replacing(dest, temps, keys, from, key), 0, to) == Replacing(dest, temps, keys, to, key)
  {
    assert map[0 := Proc(true, from, key)][0 := Proc(true, to, key)] == map[0 := Proc(true, to, key)];
  }

  lemma ReplacingStarts(previous: string, key: Secret)
    ensures Step(Replacing(previous, map[], map[], Starting, None), 0, Go)
      == Replacing(previous, map[], map[], Prepared, None)
    ensures Step(Replacing(previous, map[], map[], Prepared, None), 0, Mint(key))
         == Replacing(previous, map[], map[key := Active], Minted, Some(key))
    ensures Step(Replacing(previous, map[], map[key := Active], Minted, Some(key)), 0, Go)
         == Replacing(previous, map[0 := ""], map[key := Active], Writing(0), Some(key))
  {
    ReplacingEnters(previous, map[], map[], Starting, Prepared, None);
    ReplacingEnters(previous, map[0 := ""], map[key := Active], Minted, Writing(0), Some(key));
    assert map[0 := Proc(true, Prepared, None)][0 := Proc(true, Minted, Some(key))]
      == map[0 := Proc(true, Minted, Some(key))];
  }

  lemma ReplacingWrites(previous: string, key: Secret)
    ensures Step(Replacing(previous, map[0 := ""], map[key := Active], Writing(0), Some(key)), 0, Write(|Data(key)|))
         == Replacing(previous, map[0 := Data(key)], map[key := Active], Writing(|Data(key)|), Some(key))
    ensures Step(Replacing(previous, map[0 := Data(key)], map[key := Active], Writing(|Data(key)|), Some(key)), 0,
      Write(1))
         == Replacing(previous, map[0 := Data(key)], map[key := Active], Written, Some(key))
  {
    var data := Data(key);
    assert "" + data[0..|data|] == data;
    assert map[0 := ""][0 := data] == map[0 := data];
    ReplacingEnters(previous, map[0 := data], map[key := Active], Writing(0), Writing(|data|), Some(key));
    ReplacingEnters(previous, map[0 := data], map[key := Active], Writing(|data|), Written, Some(key));
  }

  lemma ReplacingPublishes(previous: string, key: Secret)
    ensures Step(Replacing(previous, map[0 := Data(key)], map[key := Active], Written, Some(key)), 0, Go)
         == Replacing(Data(key), map[], map[key := Active], Tidied, Some(key))
  {
    var data := Data(key);
    assert map[0 := data] - {0} == map[];
    ReplacingEnters(data, map[], map[key := Active], Written, Tidied, Some(key));
  }

  lemma ReplacingCloses(key: Secret)
    ensures Step(Replacing(Data(key), map[], map[key := Active], Tidied, Some(key)), 0, Go)
         == Replacing(Data(key), map[], map[key := Active], Closing, Some(key))
    ensures Step(Replacing(Data(key), map[], map[key := Active], Closing, Some(key)), 0, Go)
         == Replacing(Data(key), map[], map[key := Active], Succeeded, Some(key))
  {
    var data := Data(key);
    ReplacingEnters(data, map[], map[key := Active], Tidied, Closing, Some(key));
    ReplacingEnters(data, map[], map[key := Active], Closing, Succeeded, Some(key));
  }

  function Alone(dest: Option<string>, temps: map<Pid, string>, keys: map<Secret, KeyState>, phase: Phase,
                 key: Option<Secret>): World {
    World(dest, temps, keys, map[0 := Proc(false, phase, key)])
  }

  lemma WritesItsKey(key: Secret) returns (t: seq<(Pid, Event)>)
    ensures Steps(Alone(None, map[], map[], Starting, None), t)
         == Alone(None, map[0 := Data(key)], map[key := Active], Written, Some(key))
  {
    hide Step;
    var w0, active, data := Alone(None, map[], map[], Starting, None), map[key := Active], Data(key);
    AloneStarts(key);
    AloneWrites(key);
    t := [];
    t := Then(w0, t, Go, Alone(None, map[], map[], Prepared, None));
    t := Then(w0, t, Mint(key), Alone(None, map[], active, Minted, Some(key)));
    t := Then(w0, t, Go, Alone(None, map[0 := ""], active, Writing(0), Some(key)));
    t := Then(w0, t, Write(|data|), Alone(None, map[0 := data], active, Writing(|data|), Some(key)));
    t := Then(w0, t, Write(1), Alone(None, map[0 := data], active, Written, Some(key)));
  }

  lemma AloneEnters(dest: Option<string>, temps: map<Pid, string>, keys: map<Secret, KeyState>, from: Phase, to: Phase,
                    key: Option<Secret>)
    ensures Enter(Alone(dest, temps, keys, from, key), 0, to) == Alone(dest, temps, keys, to, key)
  {
    assert map[0 := Proc(false, from, key)][0 := Proc(false, to, key)] == map[0 := Proc(false, to, key)];
  }

  lemma AloneStarts(key: Secret)
    ensures Step(Alone(None, map[], map[], Starting, None), 0, Go) == Alone(None, map[], map[], Prepared, None)
    ensures Step(Alone(None, map[], map[], Prepared, None), 0, Mint(key))
      == Alone(None, map[], map[key := Active], Minted, Some(key))
    ensures Step(Alone(None, map[], map[key := Active], Minted, Some(key)), 0, Go)
         == Alone(None, map[0 := ""], map[key := Active], Writing(0), Some(key))
  {
    AloneEnters(None, map[], map[], Starting, Prepared, None);
    AloneEnters(None, map[0 := ""], map[key := Active], Minted, Writing(0), Some(key));
    assert map[0 := Proc(false, Prepared, None)][0 := Proc(false, Minted, Some(key))]
      == map[0 := Proc(false, Minted, Some(key))];
  }

  lemma AloneWrites(key: Secret)
    ensures Step(Alone(None, map[0 := ""], map[key := Active], Writing(0), Some(key)), 0, Write(|Data(key)|))
         == Alone(None, map[0 := Data(key)], map[key := Active], Writing(|Data(key)|), Some(key))
    ensures Step(Alone(None, map[0 := Data(key)], map[key := Active], Writing(|Data(key)|), Some(key)), 0, Write(1))
         == Alone(None, map[0 := Data(key)], map[key := Active], Written, Some(key))
  {
    var data := Data(key);
    assert "" + data[0..|data|] == data;
    assert map[0 := ""][0 := data] == map[0 := data];
    AloneEnters(None, map[0 := data], map[key := Active], Writing(0), Writing(|data|), Some(key));
    AloneEnters(None, map[0 := data], map[key := Active], Writing(|data|), Written, Some(key));
  }

  lemma AlonePublishes(key: Secret)
    ensures Step(Alone(None, map[0 := Data(key)], map[key := Active], Written, Some(key)), 0, Go)
         == Alone(Some(Data(key)), map[0 := Data(key)], map[key := Active], Linked, Some(key))
    ensures Step(Alone(Some(Data(key)), map[0 := Data(key)], map[key := Active], Linked, Some(key)), 0, Go)
         == Alone(Some(Data(key)), map[], map[key := Active], Tidied, Some(key))
  {
    var data := Data(key);
    AloneEnters(Some(data), map[0 := data], map[key := Active], Written, Linked, Some(key));
    assert map[0 := data] - {0} == map[];
    AloneEnters(Some(data), map[], map[key := Active], Linked, Tidied, Some(key));
  }

  lemma AloneRevokes(key: Secret)
    ensures Step(Alone(Some(Data(key)), map[], map[key := Active], Tidied, Some(key)), 0, Raise)
         == Alone(Some(Data(key)), map[], map[key := Active], Revoking, Some(key))
    ensures Step(Alone(Some(Data(key)), map[], map[key := Active], Revoking, Some(key)), 0, Answer(true))
         == Alone(Some(Data(key)), map[], map[key := Revoked], Leaving(WasRevoked), Some(key))
  {
    var data := Data(key);
    AloneEnters(Some(data), map[], map[key := Active], Tidied, Revoking, Some(key));
    assert map[key := Active][key := Revoked] == map[key := Revoked];
    AloneEnters(Some(data), map[], map[key := Revoked], Revoking, Leaving(WasRevoked), Some(key));
  }

  lemma Then(w0: World, t: seq<(Pid, Event)>, e: Event, w: World) returns (t': seq<(Pid, Event)>)
    requires Step(Steps(w0, t), 0, e) == w
    ensures t' == t + [(0, e)] && Steps(w0, t') == w
  {
    t' := t + [(0, e)];
    assert t'[..|t|] == t;
  }
}
