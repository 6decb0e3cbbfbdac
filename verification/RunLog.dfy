/** The bounded log of a run and the poller that follows it (app/deploy-runs.js:71-81,
    156-162; app/deploy-follow.js:248-283). */
module RunLog {
  /** The last `n` characters. */
  function Tail(s: string, n: nat): (r: string)
    ensures |r| == if |s| <= n then |s| else n
  {
    if |s| <= n then s else s[|s| - n..]
  }

  lemma TailIs(s: string, n: nat)
    ensures Tail(s, n) == if |s| > n then s[|s| - n..] else s
  {
  }

  /** What a poll is answered. */
  datatype Reply = Reply(chunk: string, offset: nat, behind: bool, running: bool)

  function Since(output: string, bytes: nat, running: bool, after: int): Reply
    requires |output| <= bytes
  {
    var from := if after >= 0 then after else 0;
    var windowStart := bytes - |output|;
    if from >= bytes then Reply("", bytes, false, running)
    else if from < windowStart then Reply(output, bytes, true, running)
    else Reply(output[from - windowStart..], bytes, false, running)
  }

  lemma TailTwice(s: string, t: string, n: nat)
    ensures Tail(Tail(s, n) + t, n) == Tail(s + t, n)
  {
    var a, b := Tail(s, n) + t, s + t;
    if |s| > n && |a| > n {
      forall i | 0 <= i < n ensures Tail(a, n)[i] == Tail(b, n)[i] {
        assert a[|a| - n + i] == b[|b| - n + i];
      }
    }
  }

  /** Where the retained part of `full` starts. */
  function WindowStart(full: string, cap: nat): nat {
    if |full| <= cap then 0 else |full| - cap
  }

  lemma TailStarts(full: string, cap: nat)
    ensures WindowStart(full, cap) <= |full| && Tail(full, cap) == full[WindowStart(full, cap)..]
  {
  }

  lemma SliceTwice(s: string, a: nat, b: nat)
    requires a <= b <= |s|
    ensures s[a..][b - a..] == s[b..] && (b == |s| ==> s[b..] == "")
  {
  }

  /** In terms of everything ever written: a poller inside the window gets exactly what it
      is missing, one that fell out of it gets the window and is told so. */
  lemma SinceIs(full: string, cap: nat, running: bool, after: int)
    ensures var r := Since(Tail(full, cap), |full|, running, after);
            var from := if after >= 0 then after else 0;
            && r.offset == |full|
            && (r.behind <==> from < WindowStart(full, cap) && from < |full|)
            && (r.behind ==> r.chunk == full[WindowStart(full, cap)..])
            && (!r.behind && from <= |full| ==> r.chunk == full[from..])
            && (from > |full| ==> r.chunk == "")
  {
    hide Tail;
    var from := if after >= 0 then after else 0;
    var start := WindowStart(full, cap);
    TailStarts(full, cap);
    if start <= from <= |full| { SliceTwice(full, start, from); }
  }

  class Run {
    const cap: nat
    var output: string
    var bytes: nat
    var truncated: bool
    var running: bool
    /** Everything appended so far. */
    ghost var full: string
    /** How much had been written, and whether the run had ended, when it last answered. */
    ghost var told: nat
    ghost var toldEnd: bool
    /** How many polls it has answered, and how many of them with `behind`. */
    ghost var answers: nat
    ghost var behinds: nat

    ghost predicate Valid()
      reads this
    {
      && output == Tail(full, cap)
      && bytes == |full|
      && (truncated <==> |full| > cap)
    }

    constructor (cap: nat)
      ensures Valid() && this.cap == cap && full == "" && running
    {
      this.cap := cap;
      output, bytes, truncated, running, full, told, toldEnd, answers, behinds := "", 0, false, true, "", 0, false, 0, 0;
    }

    /** The retained output stays the last `cap` characters of everything written. */
    method Append(chunk: string)
      requires Valid()
      modifies this`output, this`bytes, this`truncated, this`full
      ensures Valid() && full == if running then old(full) + chunk else old(full)
    {
      if !running || chunk == "" {
        assert full + "" == full;
        return;
      }
      hide Tail;
      TailTwice(full, chunk, cap);
      bytes := bytes + |chunk|;
      output := output + chunk;
      assert Tail(output, cap) == if |output| > cap then output[|output| - cap..] else output by { TailIs(output, cap); }
      if |output| > cap {
        output := output[|output| - cap..];
        truncated := true;
      }
      full := full + chunk;
    }

    method Finish()
      requires Valid()
      modifies this`running
      ensures Valid() && !running
    {
      running := false;
    }

    /** The run as it is when the page opens. */
    method Open() returns (text: string, offset: nat, ended: bool)
      requires Valid()
      modifies this`told, this`toldEnd
      ensures Valid() && text == Tail(full, cap) && offset == |full| && ended == !running
      ensures told == |full| && toldEnd == !running
    {
      told, toldEnd := |full|, !running;
      text, ended := output, !running;
      offset := if bytes > 0 then bytes else |text|;
    }

    method Poll(after: int) returns (r: Reply)
      requires Valid()
      modifies this`told, this`toldEnd, this`answers, this`behinds
      ensures Valid() && r == Since(Tail(full, cap), |full|, running, after)
      ensures told == |full| && toldEnd == !running
      ensures answers == old(answers) + 1 && behinds == old(behinds) + if r.behind then 1 else 0
    {
      hide Tail, Since, WindowStart;
      told, toldEnd := |full|, !running;
      r := Since(output, bytes, running, after);
      answers, behinds := answers + 1, behinds + if r.behind then 1 else 0;
    }

    /** What the script does while the follower waits: any appends, perhaps its end. */
    method Meanwhile()
      requires Valid()
      modifies this`output, this`bytes, this`truncated, this`full, this`running
      ensures Valid() && old(full) <= full
      ensures told == old(told) && toldEnd == old(toldEnd)
      ensures !old(running) ==> !running && full == old(full)
    {
      var n: int := *;
      for i := 0 to if n > 0 then n else 0
        invariant told == old(told) && toldEnd == old(toldEnd)
        invariant Valid() && old(full) <= full && (!old(running) ==> !running && full == old(full))
      {
        var chunk: string := *;
        Append(chunk);
      }
      var ends := *;
      if ends { Finish(); }
    }
  }

  /** The follower holds one piece of everything written, ending at its offset and starting
      no later than what is retained. */
  ghost predicate Follows(text: string, start: nat, offset: nat, full: string, cap: nat) {
    && start <= offset <= |full| && text == full[start..offset]
    && start <= WindowStart(full, cap)
  }

  lemma FollowsLater(text: string, start: nat, offset: nat, full: string, later: string, cap: nat)
    requires Follows(text, start, offset, full, cap) && full <= later
    ensures Follows(text, start, offset, later, cap)
  {
  }

  /** One reply, worked out for `asked` and received when `full` has been written. */
  lemma FollowsReply(text: string, start: nat, offset: nat, asked: string, full: string, cap: nat, running: bool)
    requires Follows(text, start, offset, asked, cap) && asked <= full
    ensures var r := Since(Tail(asked, cap), |asked|, running, offset);
            Follows((if r.behind then "" else text) + r.chunk, if r.behind then WindowStart(asked, cap) else start, r.offset, full, cap)
  {
    SinceIs(asked, cap, running, offset);
    assert asked == full[..|asked|];
    assert asked[start..offset] + asked[offset..] == full[start..|asked|];
  }

  /** Follow a run over any number of polls, each of which may be dropped, with the script
      writing at any time between them and while a reply is under way.  `drops` counts the
      polls that were dropped. */
  method Follow(run: Run, polls: nat) returns (text: string, offset: nat, ended: bool, ghost start: nat, ghost drops: nat)
    requires run.Valid()
    modifies run
    ensures run.Valid() && old(run.full) <= run.full
    ensures Follows(text, start, offset, run.full, run.cap)
    ensures offset == run.told && ended == run.toldEnd && |old(run.full)| <= run.told
    ensures ended || run.answers + drops == old(run.answers) + polls
    ensures run.behinds == old(run.behinds) ==> start == WindowStart(old(run.full), run.cap)
    ensures ended ==> !run.running && text == run.full[start..]
  {
    hide Tail, Follows, Since, WindowStart;
    FollowsAtFirst(run.full, run.cap);
    text, offset, ended := run.Open();
    start, drops := WindowStart(run.full, run.cap), 0;
    for poll := 0 to polls
      invariant run.Valid() && old(run.full) <= run.full
      invariant Follows(text, start, offset, run.full, run.cap)
      invariant offset == run.told && ended == run.toldEnd && |old(run.full)| <= run.told
      invariant run.answers + drops <= old(run.answers) + poll && (!ended ==> run.answers + drops == old(run.answers) + poll)
      invariant run.behinds >= old(run.behinds) && (run.behinds == old(run.behinds) ==> start == WindowStart(old(run.full), run.cap))
      invariant ended ==> !run.running && offset == |run.full|
    {
      if ended { break; }
      ghost var before := run.full;
      run.Meanwhile();
      FollowsLater(text, start, offset, before, run.full, run.cap);
      var dropped := *;
      if dropped {
        drops := drops + 1;
        continue;
      }
      var reply := run.Poll(offset);
      ghost var asked, wasRunning := run.full, run.running;
      run.Meanwhile();
      SinceOffset(asked, run.cap, wasRunning, offset);
      FollowsReply(text, start, offset, asked, run.full, run.cap, wasRunning);
      if reply.behind {
        text := "";
        start := WindowStart(asked, run.cap);
      }
      text := text + reply.chunk;
      offset := reply.offset;
      ended := !reply.running;
    }
    if ended { FollowsWhole(text, start, run.full, run.cap); }
  }

  lemma FollowsAtFirst(full: string, cap: nat)
    ensures Follows(Tail(full, cap), WindowStart(full, cap), |full|, full, cap)
  {
    assert full[WindowStart(full, cap)..|full|] == full[WindowStart(full, cap)..];
  }

  lemma FollowsWhole(text: string, start: nat, full: string, cap: nat)
    requires Follows(text, start, |full|, full, cap)
    ensures start <= |full| && text == full[start..]
  {
    assert full[start..|full|] == full[start..];
  }

  lemma SinceOffset(full: string, cap: nat, running: bool, after: int)
    ensures var r := Since(Tail(full, cap), |full|, running, after);
            r.offset == |full| && r.running == running
  {
  }

  /** A poller is told `behind` exactly when characters it has not seen are gone. */
  lemma BehindIffLost(text: string, start: nat, offset: nat, full: string, cap: nat, running: bool)
    requires Follows(text, start, offset, full, cap)
    ensures Since(Tail(full, cap), |full|, running, offset).behind <==> offset < WindowStart(full, cap)
  {
    SinceIs(full, cap, running, offset);
  }

  // ---------------------------------------------------------------- the slot's next run

  /** The text is a piece of the output that ends at the offset. */
  predicate PieceOf(text: string, offset: nat, full: string) {
    |text| <= offset <= |full| && full[offset - |text|..offset] == text
  }

  /** What the follower holds after a reply. */
  function TextAfter(text: string, r: Reply): string {
    (if r.behind then "" else text) + r.chunk
  }

  function Least(a: nat, b: nat): nat {
    if a <= b then a else b
  }

  /** The run that answers a poll of the slot, with everything it has written so far. */
  datatype Answering = Answering(id: string, full: string)

  /** An id names one run, and its output only grows. */
  predicate Later(a: Answering, b: Answering) {
    a.id == b.id ==> a.full <= b.full
  }

  /** A poll is answered by whatever run the slot has by then: whether the follower is told,
      which is when what it asks for is no longer retained, and how far it is moved. */
  lemma WhenTold(offset: nat, now: string, cap: nat, running: bool)
    ensures var r := Since(Tail(now, cap), |now|, running, offset);
            && (r.behind <==> offset < WindowStart(now, cap) && offset < |now|)
            && r.offset == |now|
            && (r.offset < offset ==> !r.behind && r.chunk == "")
  {
    SinceIs(now, cap, running, offset);
  }

  /** For every follower and every run that answers: its text is a piece of that run's
      output exactly when it was told, or what it held ends a piece of that output as well,
      at its own offset or at the end of a shorter output. */
  lemma PieceAfterReplyIff(text: string, offset: nat, now: string, cap: nat, running: bool)
    requires |text| <= offset
    ensures var r := Since(Tail(now, cap), |now|, running, offset);
            PieceOf(TextAfter(text, r), r.offset, now) <==> r.behind || PieceOf(text, Least(offset, |now|), now)
  {
    var r := Since(Tail(now, cap), |now|, running, offset);
    SinceIs(now, cap, running, offset);
    if r.behind {
      assert "" + r.chunk == now[WindowStart(now, cap)..];
      assert now[WindowStart(now, cap)..] == now[WindowStart(now, cap)..|now|];
    } else if offset < |now| {
      PieceGrows(text, offset, now);
      assert r.chunk == now[offset..];
    } else {
      assert r.chunk == "" && TextAfter(text, r) == text;
    }
  }

  lemma PieceGrows(text: string, offset: nat, now: string)
    requires |text| <= offset <= |now|
    ensures PieceOf(text + now[offset..], |now|, now) <==> PieceOf(text, offset, now)
  {
    var whole, from := text + now[offset..], offset - |text|;
    assert now[from..|now|] == now[from..offset] + now[offset..];
    assert whole[..|text|] == text && now[from..|now|][..|text|] == now[from..offset];
  }

  /** The same for the run it was following: whether the text is still a piece of that one. */
  lemma StillOldRunIff(text: string, offset: nat, earlier: string, now: string, cap: nat, running: bool)
    requires PieceOf(text, offset, earlier)
    ensures var r := Since(Tail(now, cap), |now|, running, offset);
            && (!r.behind && offset < |now| ==>
                  (PieceOf(TextAfter(text, r), r.offset, earlier) <==> |now| <= |earlier| && now[offset..] == earlier[offset..|now|]))
            && (!r.behind && offset == |now| ==> PieceOf(TextAfter(text, r), r.offset, earlier))
            && (offset > |now| ==> (PieceOf(TextAfter(text, r), r.offset, earlier) <==> PieceOf(text, |now|, earlier)))
  {
    var r := Since(Tail(now, cap), |now|, running, offset);
    SinceIs(now, cap, running, offset);
    if !r.behind && offset < |now| {
      var from := offset - |text|;
      assert r.chunk == now[offset..];
      if |now| <= |earlier| {
        assert earlier[from..|now|] == earlier[from..offset] + earlier[offset..|now|];
        assert (text + r.chunk)[|text|..] == r.chunk;
        assert (text + earlier[offset..|now|])[|text|..] == earlier[offset..|now|];
      }
    } else if !r.behind {
      assert r.chunk == "" && TextAfter(text, r) == text;
    }
  }

  /** When the run that answers is the one followed, the text stays a piece of it, told or
      not. */
  lemma SameRunKeepsPiece(text: string, offset: nat, followed: Answering, now: Answering, cap: nat, running: bool)
    requires PieceOf(text, offset, followed.full) && Later(followed, now) && now.id == followed.id
    ensures var r := Since(Tail(now.full, cap), |now.full|, running, offset);
            PieceOf(TextAfter(text, r), r.offset, now.full)
  {
    PieceAfterReplyIff(text, offset, now.full, cap, running);
    assert followed.full == now.full[..|followed.full|];
  }

  /** The next run's output is appended to the last one's unannounced, and the result is a
      piece of neither, exactly when what is asked for is retained and the two outputs differ
      both before and after the offset. */
  lemma MixedInIff(text: string, offset: nat, first: string, second: string, cap: nat, running: bool)
    requires PieceOf(text, offset, first)
    ensures var r := Since(Tail(second, cap), |second|, running, offset);
            (!r.behind && !PieceOf(TextAfter(text, r), r.offset, first) && !PieceOf(TextAfter(text, r), r.offset, second))
            <==>
            if offset < |second| then
              && WindowStart(second, cap) <= offset
              && text != second[offset - |text|..offset]
              && !(|second| <= |first| && second[offset..] == first[offset..|second|])
            else
              offset > |second| && !PieceOf(text, |second|, second) && !PieceOf(text, |second|, first)
  {
    WhenTold(offset, second, cap, running);
    PieceAfterReplyIff(text, offset, second, cap, running);
    StillOldRunIff(text, offset, first, second, cap, running);
  }

  /** A short run after a long one: the text of the old run stays under the new one's name
      with an offset that has moved backwards, and what the new run writes next is appended. */
  lemma AnotherRunIsMixedIn()
    ensures var r := Since(Tail("deploy ok", 100), |"deploy ok"|, true, 5);
            PieceOf("build", 5, "build") && !r.behind && TextAfter("build", r) == "buildy ok"
    ensures var r := Since(Tail("ok", 100), |"ok"|, true, 5);
            !r.behind && r.offset == 2 && TextAfter("build", r) == "build" &&
            TextAfter("build", Since(Tail("ok, go", 100), |"ok, go"|, true, r.offset)) == "build, go"
  {
    assert Since(Tail("deploy ok", 100), |"deploy ok"|, true, 5).chunk == "y ok";
    assert Since(Tail("ok, go", 100), |"ok, go"|, true, 2).chunk == ", go";
  }
}
