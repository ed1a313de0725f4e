/** Why each post got to where it is: the branches `post` takes, over whole runs. */
module RetryReasons {
  import opened Basics
  import opened BatchList
  import opened RetryMachine
  import opened RetryInvariants
  import opened RetryTheorems
  import opened RetryTraces

  predicate At(s: State, p: nat, pc: PostPc) {
    p in s.posts && s.posts[p].pc == pc
  }

  // ---------------------------------------------------------------- what a post can do

  /** The flag is found set, and the post goes to the buffer. */
  predicate FindsSet(cfg: Config, s: State, s': State, p: nat) {
    cfg.buffered && s.buffering && At(s, p, Started) && At(s', p, Adding(false))
  }

  /** There is no flag, or it is found clear, and the post goes to the backend. */
  predicate FindsClear(cfg: Config, s: State, s': State, p: nat) {
    !(cfg.buffered && s.buffering) && At(s, p, Started) && At(s', p, Posting)
  }

  /** The direct POST of all the data, with this outcome. */
  predicate PostsDirectly(s: State, s': State, p: nat, o: Outcome) {
    && At(s, p, Posting) && p in s'.posts && !s'.posts[p].pc.Posting?
    && s'.log == s.log + [Posted(s.posts[p].key, s.posts[p].write.data, o)]
  }

  /** The write does not fit into the buffer, and nothing else changes. */
  predicate FindsFull(cfg: Config, s: State, s': State, p: nat) {
    && p in s.posts && s.posts[p].pc.Adding? && s.size + |s.posts[p].write.data| > cfg.maxSize
    && s' == s.Goto(p, Returned(BufferFull, None))
  }

  /** The write fits, and is the last one accepted so far. */
  predicate FindsRoom(cfg: Config, s: State, s': State, p: nat) {
    && p in s.posts && s.posts[p].pc.Adding? && s.size + |s.posts[p].write.data| <= cfg.maxSize
    && p in s'.posts && s'.posts[p].pc.Reading? && s'.size == s.size + |s.posts[p].write.data|
    && s'.accepted == s.accepted + [Entry(s.posts[p].write, s.posts[p].key, s'.posts[p].pc.own)]
  }

  /** What a direct POST leads to. */
  function AfterDirect(cfg: Config, o: Outcome): PostPc {
    if Settles(o) then Returned(Got(o.resp), None)
    else if cfg.buffered then Refused
    else if o.Answered? then Returned(Got(o.resp), None)
    else Returned(PostFailed, None)
  }

  ghost predicate GoesOn(cfg: Config, s: State, s': State, p: nat)
    requires p in s.posts && p in s'.posts
  {
    match s.posts[p].pc
    case Started => FindsSet(cfg, s, s', p) || FindsClear(cfg, s, s', p)
    case Posting => exists o :: PostsDirectly(s, s', p, o) && At(s', p, AfterDirect(cfg, o))
    case Refused => s'.buffering && At(s', p, Adding(true))
    case Adding(_) => FindsFull(cfg, s, s', p) || FindsRoom(cfg, s, s', p)
    case Reading(_, own) => At(s', p, Crashed(own)) || exists on :: At(s', p, PostPc.Waiting(on, own))
    case Waiting(on, own) =>
      At(s', p, NilResponse(own)) || exists resp :: At(s', p, Returned(Got(resp), Some(Wait(on, own))))
    case _ => false
  }

  lemma DirectStep(cfg: Config, s: State, act: Act, s': State, p: nat)
    requires Takes(cfg, s, act, s') && act.step.DirectPost? && act.step.p == p
    ensures GoesOn(cfg, s, s', p)
  {
    var o := act.step.outcome;
    assert PostsDirectly(s, s', p, o) && At(s', p, AfterDirect(cfg, o));
  }

  lemma OwnStep(cfg: Config, s: State, act: Act, s': State, p: nat)
    requires Takes(cfg, s, act, s') && p in s.posts && TouchesPost(act.step, p)
    ensures p in s'.posts && GoesOn(cfg, s, s', p)
  {
    match act.step
    case DirectPost(_, _) => DirectStep(cfg, s, act, s', p);
    case _ =>
  }

  /** A step leaves a post alone, or the post takes one of its branches. */
  lemma StepGoesOn(cfg: Config, s: State, s': State, p: nat)
    requires Next(cfg, s, s') && p in s.posts
    ensures p in s'.posts && s'.posts[p].write == s.posts[p].write && s'.posts[p].key == s.posts[p].key
    ensures s'.posts[p] == s.posts[p] || GoesOn(cfg, s, s', p)
  {
    var act := NextTakes(cfg, s, s');
    PostsKept(cfg, s, act.step, act.heap);
    if TouchesPost(act.step, p) {
      OwnStep(cfg, s, act, s', p);
    } else {
      OthersUntouched(cfg, s, act.step, act.heap, p);
    }
  }

  lemma NewPost(cfg: Config, s: State, s': State, p: nat)
    requires Next(cfg, s, s') && p !in s.posts && p in s'.posts
    ensures s'.posts[p].pc.Started?
  {
    var act := NextTakes(cfg, s, s');
    PostsKept(cfg, s, act.step, act.heap);
  }

  // ---------------------------------------------------------------- why it is there

  /** A post takes to the buffer because it found the flag set, or its own direct POST
      failed or was answered with a 5xx. */
  ghost predicate TurnsToBuffer(cfg: Config, s: State, s': State, p: nat) {
    cfg.buffered && (FindsSet(cfg, s, s', p) || exists o :: PostsDirectly(s, s', p, o) && !Settles(o))
  }

  ghost predicate Turned(cfg: Config, run: seq<State>, j: nat, p: nat)
    requires j < |run|
  {
    exists i :: 0 <= i < j && TurnsToBuffer(cfg, run[i], run[i + 1], p)
  }

  ghost predicate Tried(run: seq<State>, j: nat, p: nat, o: Outcome)
    requires j < |run|
  {
    exists i :: 0 <= i < j && PostsDirectly(run[i], run[i + 1], p, o)
  }

  ghost predicate Justified(cfg: Config, run: seq<State>, j: nat, p: nat)
    requires j < |run| && p in run[j].posts
  {
    match run[j].posts[p].pc
    case Started => true
    case Posting => exists i :: 0 <= i < j && FindsClear(cfg, run[i], run[i + 1], p)
    case Refused => Turned(cfg, run, j, p)
    case Adding(_) => Turned(cfg, run, j, p)
    case Returned(Got(resp), None) => Tried(run, j, p, Answered(resp)) && (cfg.buffered ==> Class(resp) != 5)
    case Returned(PostFailed, _) => !cfg.buffered && Tried(run, j, p, Failed)
    case Returned(BufferFull, _) =>
      Turned(cfg, run, j, p) && exists i :: 0 <= i < j && FindsFull(cfg, run[i], run[i + 1], p)
    case _ =>
      Turned(cfg, run, j, p) && exists i :: 0 <= i < j && FindsRoom(cfg, run[i], run[i + 1], p)
  }

  lemma NowJustified(cfg: Config, run: seq<State>, j: nat, p: nat)
    requires 0 < j < |run| && p in run[j - 1].posts && p in run[j].posts
    requires Justified(cfg, run, j - 1, p) && GoesOn(cfg, run[j - 1], run[j - 1 + 1], p)
    ensures Justified(cfg, run, j, p)
  {
    match run[j - 1].posts[p].pc
    case Posting =>
      var o :| PostsDirectly(run[j - 1], run[j - 1 + 1], p, o) && At(run[j], p, AfterDirect(cfg, o));
      assert cfg.buffered && !Settles(o) ==> TurnsToBuffer(cfg, run[j - 1], run[j - 1 + 1], p);
    case Started =>
      assert FindsSet(cfg, run[j - 1], run[j - 1 + 1], p) ==> TurnsToBuffer(cfg, run[j - 1], run[j - 1 + 1], p);
    case _ =>
  }

  /** In every run: a post is POSTing directly only after it found no set flag; it is in
      the buffer only if it found the flag set, or its direct POST failed or got a 5xx,
      and the write then fitted; it reports ErrBufferFull only if the write did not fit
      when it was to be added; and any other answer or error is that of a direct POST of
      its own data, or of the batch it waited on. */
  lemma {:induction false} WhyThere(cfg: Config, run: seq<State>, j: nat, p: nat)
    requires IsRun(cfg, run) && j < |run| && p in run[j].posts
    ensures Justified(cfg, run, j, p)
  {
    if j > 0 {
      assert Next(cfg, run[j - 1], run[j - 1 + 1]);
      if p in run[j - 1].posts {
        WhyThere(cfg, run, j - 1, p);
        StepGoesOn(cfg, run[j - 1], run[j], p);
        if run[j].posts[p] != run[j - 1].posts[p] {
          NowJustified(cfg, run, j, p);
        }
      } else {
        NewPost(cfg, run[j - 1], run[j], p);
      }
    }
  }

  /** ErrBufferFull is returned by nobody but a post whose write does not fit right then. */
  lemma FullOnlyIfFull(cfg: Config, s: State, s': State, p: nat)
    requires Next(cfg, s, s') && p in s.posts && !s.posts[p].pc.Returned?
    requires p in s'.posts && s'.posts[p].pc == Returned(BufferFull, None)
    ensures s.posts[p].pc.Adding? && s.size + |s.posts[p].write.data| > cfg.maxSize
    ensures s' == s.Goto(p, Returned(BufferFull, None))
  {
    StepGoesOn(cfg, s, s', p);
  }

  /** A post has returned ErrBufferFull exactly if it had already, or is now refused. */
  lemma FullExact(cfg: Config, s: State, s': State, p: nat, n: nat)
    requires Next(cfg, s, s') && (p in s.posts ==> |s.posts[p].write.data| == n)
    ensures At(s', p, Returned(BufferFull, None)) <==>
            || At(s, p, Returned(BufferFull, None))
            || (&& p in s.posts && s.posts[p].pc.Adding? && s.size + n > cfg.maxSize
                && At(s', p, Returned(BufferFull, None)))
  {
    if p in s.posts {
      StepGoesOn(cfg, s, s', p);
    } else if p in s'.posts {
      NewPost(cfg, s, s', p);
    }
  }

  // ---------------------------------------------------------------- what it leads to

  /** A post whose direct POST settled, or that has no buffer, returns that very outcome.
      Otherwise it sets the flag before it goes on to add its write. */
  lemma {:induction false} DirectPostDecides(cfg: Config, run: seq<State>, i: nat, j: nat, p: nat, o: Outcome)
    requires IsRun(cfg, run) && i < j < |run| && PostsDirectly(run[i], run[i + 1], p, o)
    ensures p in run[j].posts
    ensures !cfg.buffered || Settles(o) ==>
      run[j].posts[p].pc == Returned(if o.Answered? then Got(o.resp) else PostFailed, None)
    ensures cfg.buffered && !Settles(o) ==>
      || run[j].posts[p].pc.Refused?
      || exists m :: i < m < j && At(run[m], p, Refused) && At(run[m + 1], p, Adding(true)) && run[m + 1].buffering
  {
    assert Next(cfg, run[j - 1], run[j - 1 + 1]);
    if j == i + 1 {
      StepGoesOn(cfg, run[i], run[i + 1], p);
      var o' :| PostsDirectly(run[i], run[i + 1], p, o') && At(run[i + 1], p, AfterDirect(cfg, o'));
      assert run[i + 1].log[|run[i].log|].outcome == o;
    } else {
      DirectPostDecides(cfg, run, i, j - 1, p, o);
      StepGoesOn(cfg, run[j - 1], run[j], p);
      if At(run[j - 1], p, Refused) && !run[j].posts[p].pc.Refused? {
        assert At(run[j - 1 + 1], p, Adding(true)) && run[j - 1 + 1].buffering;
      }
    }
  }

  /** While the flag stays clear, no post newly takes to the buffer without having tried
      the backend itself. */
  lemma {:induction false} NoNewBuffering(cfg: Config, run: seq<State>, i: nat, j: nat, p: nat)
    requires IsRun(cfg, run) && i <= j < |run|
    requires forall m :: i <= m < j ==> !run[m].buffering
    requires At(run[j], p, Adding(false))
    ensures At(run[i], p, Adding(false))
  {
    if i < j {
      assert Next(cfg, run[j - 1], run[j - 1 + 1]);
      if p in run[j - 1].posts {
        StepGoesOn(cfg, run[j - 1], run[j], p);
      } else {
        NewPost(cfg, run[j - 1], run[j], p);
      }
      NoNewBuffering(cfg, run, i, j - 1, p);
    }
  }

  /** Once a batch has its answer, the flag is cleared before anything else happens to it,
      whether or not more is queued. */
  lemma {:induction false} FlagClearedPerBatch(cfg: Config, run: seq<State>, i: nat, j: nat)
    requires IsRun(cfg, run) && i <= j < |run| && run[i].run.Published?
    ensures run[j].run.Published? || exists m :: i < m <= j && run[m].run.Cleared? && !run[m].buffering
  {
    if i < j {
      FlagClearedPerBatch(cfg, run, i, j - 1);
      if run[j - 1].run.Published? {
        assert Next(cfg, run[j - 1], run[j - 1 + 1]);
      }
    }
  }
}
