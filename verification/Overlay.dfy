// The overlay mount of a run: unmounting with bounded retries, and discarding
// the upper and work layers afterwards.
module Overlay {
  import opened Text
  import opened Tree

  datatype Backend = Kernel | Fuse

  /**
   * unicode.ToLower, as far as it gives ASCII: a capital I with a dot and the Kelvin
   * sign are the two other characters with an ASCII lower case.
   */
  function LowerChar(c: char): (r: char)
    ensures !('A' <= r <= 'Z') && ('A' <= c <= 'Z' ==> r as int == c as int + 32)
  {
    if 'A' <= c <= 'Z' then (c as int - 'A' as int + 'a' as int) as char
    else if c == '\U{0130}' then 'i'
    else if c == '\U{212A}' then 'k'
    else c
  }

  function ToLower(s: string): (r: string)
    ensures |r| == |s| && forall i :: 0 <= i < |s| ==> r[i] == LowerChar(s[i])
  {
    if s == [] then [] else [LowerChar(s[0])] + ToLower(s[1..])
  }

  /** strings.Contains. */
  predicate Contains(s: string, m: string) {
    m <= s || (s != [] && Contains(s[1..], m))
  }

  lemma {:induction false} ContainsAt(s: string, m: string, i: nat)
    requires i <= |s| && m <= s[i..]
    ensures Contains(s, m)
  {
    if i > 0 {
      assert s[1..][i - 1..] == s[i..];
      ContainsAt(s[1..], m, i - 1);
    } else {
      assert s[0..] == s;
    }
  }

  lemma {:induction false} ContainsWhere(s: string, m: string) returns (i: nat)
    requires Contains(s, m)
    ensures i <= |s| && m <= s[i..]
  {
    if m <= s {
      i := 0;
      assert s[0..] == s;
    } else {
      var j := ContainsWhere(s[1..], m);
      i := j + 1;
      assert s[1..][j..] == s[i..];
    }
  }

  /** A word without the separator cannot straddle it. */
  lemma ContainsSplit(a: string, b: string, sep: char, m: string)
    requires sep !in m
    ensures Contains(a + [sep] + b, m) <==> Contains(a, m) || Contains(b, m)
  {
    var s := a + [sep] + b;
    if Contains(s, m) {
      var i := ContainsWhere(s, m);
      if i <= |a| < i + |m| { Straddled(s, |a|, m, i); }
      if i + |m| <= |a| {
        assert s[i..][..|m|] == a[i..][..|m|];
        ContainsAt(a, m, i);
      } else {
        assert s[i..] == b[i - |a| - 1..];
        ContainsAt(b, m, i - |a| - 1);
      }
    }
    if Contains(a, m) {
      var i := ContainsWhere(a, m);
      assert s[i..][..|m|] == a[i..][..|m|];
      ContainsAt(s, m, i);
    }
    if Contains(b, m) {
      var i := ContainsWhere(b, m);
      assert s[|a| + 1 + i..] == b[i..];
      ContainsAt(s, m, |a| + 1 + i);
    }
  }

  lemma Straddled(s: string, at: nat, m: string, i: nat)
    requires i <= at < |s| && at < i + |m| && m <= s[i..]
    ensures s[at] in m
  {
    assert m[at - i] == s[i..][at - i];
  }

  lemma ContainsChars(s: string, m: string, k: nat)
    requires k < |m| && Contains(s, m)
    ensures m[k] in s
  {
    var i := ContainsWhere(s, m);
    assert s[i + k] == s[i..][k];
  }

  predicate ContainsAny(s: string, words: seq<string>) {
    exists i :: 0 <= i < |words| && Contains(s, words[i])
  }

  lemma ContainsAnySplit(a: string, b: string, sep: char, words: seq<string>)
    requires forall i :: 0 <= i < |words| ==> sep !in words[i]
    ensures ContainsAny(a + [sep] + b, words) <==> ContainsAny(a, words) || ContainsAny(b, words)
  {
    forall i | 0 <= i < |words|
      ensures Contains(a + [sep] + b, words[i]) <==> Contains(a, words[i]) || Contains(b, words[i]) {
      ContainsSplit(a, b, sep, words[i]);
    }
  }

  function BusyWords(): seq<string> { ["device or resource busy", "resource busy"] }
  function GoneWords(): seq<string> { ["invalid argument", "not found in /etc/mtab", "not mounted"] }

  predicate UnmountBusy(message: string) {
    ContainsAny(ToLower(message), BusyWords())
  }

  predicate AlreadyUnmounted(message: string) {
    ContainsAny(ToLower(message), GoneWords())
  }

  /** The command line of an unmount, with the text the runner puts after it. */
  function CommandLine(backend: Backend, mountPoint: string): string {
    (if backend.Fuse? then "fusermount3 -u " else "umount ") + mountPoint + " failed"
  }

  /** What a failing command reports: the command line, a colon, and the command's own words. */
  function Report(prefix: string, own: string): string {
    prefix + ":" + own
  }

  /** waitForUnmount's message when it gives up. */
  function NotSettled(mountPoint: string): string {
    "unmount " + mountPoint + " did not settle before timeout"
  }

  function BadLayout(): string { "overlay layout is invalid" }

  /** ctx.Err(): what a cancelled or expired context reports. */
  function Stopped(expired: bool): string {
    if expired then "context deadline exceeded" else "context canceled"
  }

  lemma StoppedIsLower(expired: bool)
    ensures ToLower(Stopped(expired)) == Stopped(expired)
  {
    var message := Stopped(expired);
    assert forall i :: 0 <= i < |message| ==> LowerChar(message[i]) == message[i];
    assert forall i :: 0 <= i < |message| ==> ToLower(message)[i] == message[i];
  }

  lemma StoppedLacks(expired: bool)
    ensures 'v' !in Stopped(expired) && '/' !in Stopped(expired) && 'm' !in Stopped(expired)
  {
  }

  lemma WordsHave()
    ensures |GoneWords()| == 3 && |GoneWords()[0]| > 2 && |GoneWords()[1]| > 13 && |GoneWords()[2]| > 4
    ensures GoneWords()[0][2] == 'v' && GoneWords()[1][13] == '/' && GoneWords()[2][4] == 'm'
  {
  }

  lemma LacksWords(s: string, words: seq<string>)
    requires |words| == 3 && |words[0]| > 2 && |words[1]| > 13 && |words[2]| > 4
    requires words[0][2] !in s && words[1][13] !in s && words[2][4] !in s
    ensures !ContainsAny(s, words)
  {
    if Contains(s, words[0]) { ContainsChars(s, words[0], 2); }
    if Contains(s, words[1]) { ContainsChars(s, words[1], 13); }
    if Contains(s, words[2]) { ContainsChars(s, words[2], 4); }
  }

  lemma StoppedIsNotUnmounted(expired: bool)
    ensures !AlreadyUnmounted(Stopped(expired))
  {
    StoppedIsLower(expired);
    StoppedLacks(expired);
    WordsHave();
    LacksWords(Stopped(expired), GoneWords());
  }

  lemma WordsHaveNoColon()
    ensures forall i :: 0 <= i < |GoneWords()| ==> ':' !in GoneWords()[i]
    ensures forall i :: 0 <= i < |BusyWords()| ==> ':' !in BusyWords()[i]
  {
  }

  lemma {:induction false} LowerConcat(a: string, b: string)
    ensures ToLower(a + b) == ToLower(a) + ToLower(b)
  {
    assert forall i :: 0 <= i < |a + b| ==> ToLower(a + b)[i] == (ToLower(a) + ToLower(b))[i];
  }

  /** A report reads "already unmounted", or "busy", when the command line or the command's own words do. */
  lemma ReportReads(prefix: string, own: string)
    ensures AlreadyUnmounted(Report(prefix, own)) <==> AlreadyUnmounted(prefix) || AlreadyUnmounted(own)
    ensures UnmountBusy(Report(prefix, own)) <==> UnmountBusy(prefix) || UnmountBusy(own)
  {
    LowerConcat(prefix + ":", own);
    LowerConcat(prefix, ":");
    assert ToLower(":") == [':'];
    WordsHaveNoColon();
    ContainsAnySplit(ToLower(prefix), ToLower(own), ':', GoneWords());
    ContainsAnySplit(ToLower(prefix), ToLower(own), ':', BusyWords());
  }

  // -- What unmounting does, as a function of what the commands answer -------------------

  /** The own words of a command that failed, and whether the mount is live after it. */
  datatype Reply = Reply(error: Option<string>, live: bool)

  /** Is the context done after a command? */
  datatype Context = GoesOn | Done(expired: bool)

  /** Everything outside the program: the answer to each command, and the context after it. */
  datatype World = World(reply: nat -> Reply, context: nat -> Context)

  datatype Setting = Setting(backend: Backend, mountPoint: string, realRunner: bool)

  /** A command that was run: did it fail, with what words, and is the mount live after it? */
  datatype Command =
    | Umount(error: Option<string>, live: bool)
    | Probe(failed: bool, live: bool)

  /** How a call ended, what it ran, and whether the mount is live at its end. */
  datatype Run = Run(error: Option<string>, commands: seq<Command>, live: bool)

  const MAX_RETRIES: nat := 20
  const MAX_PROBES: nat := 200

  function Prepend(c: Command, r: Run): Run {
    r.(commands := [c] + r.commands)
  }

  /** The text of a failed unmount: a runner of one's own reports only its own words. */
  function Message(own: string, s: Setting): string {
    if s.realRunner then Report(CommandLine(s.backend, s.mountPoint), own) else own
  }

  /** Probes from the kth command on: any probe that fails counts as the mount being gone. */
  function Waiting(w: World, s: Setting, k: nat, live: bool, left: nat): Run
    decreases left
  {
    if left == 0 then Run(Some(NotSettled(s.mountPoint)), [], live)
    else
      var reply := w.reply(k);
      var now := live && reply.live;
      var c := Probe(reply.error.Some?, now);
      if reply.error.Some? then Run(None, [c], now)
      else
        match w.context(k)
        case Done(expired) => Run(Some(Stopped(expired)), [c], now)
        case GoesOn => Prepend(c, Waiting(w, s, k + 1, now, left - 1))
  }

  /** Unmount from the kth command on, with so many retries left. */
  function Unmounting(w: World, s: Setting, k: nat, live: bool, retries: nat): Run
    decreases retries
  {
    var reply := w.reply(k);
    var now := live && reply.live;
    var c := Umount(reply.error, now);
    match reply.error
    case None => if s.realRunner then Prepend(c, Waiting(w, s, k + 1, now, MAX_PROBES)) else Run(None, [c], now)
    case Some(own) =>
      var message := Message(own, s);
      if !UnmountBusy(message) || retries == 0 then Run(Some(message), [c], now)
      else
        match w.context(k)
        case Done(expired) => Run(Some(Stopped(expired)), [c], now)
        case GoesOn => Prepend(c, Unmounting(w, s, k + 1, now, retries - 1))
  }

  /** Rollback goes on to discard the layers after such an end of Unmount. */
  predicate Accepted(error: Option<string>, backend: Backend) {
    error.None? || (backend.Fuse? && AlreadyUnmounted(error.value))
  }

  // -- What it means -----------------------------------------------------------------

  /** A failed unmount that is tried again only because the mount was busy. */
  predicate BusyUmount(c: Command, s: Setting) {
    c.Umount? && c.error.Some? && UnmountBusy(Message(c.error.value, s))
  }

  lemma {:induction false} OnlyProbes(w: World, s: Setting, k: nat, live: bool, left: nat)
    ensures var r := Waiting(w, s, k, live, left);
      && |r.commands| <= left && (forall i :: 0 <= i < |r.commands| ==> r.commands[i].Probe?)
      && (r.error.None? ==> r.commands != [] && Last(r.commands) == Probe(true, r.live))
      && (r.error.Some? ==> r.error.value == NotSettled(s.mountPoint) || exists e :: r.error.value == Stopped(e))
    decreases left
  {
    if left > 0 && w.reply(k).error.None? && w.context(k).GoesOn? {
      OnlyProbes(w, s, k + 1, live && w.reply(k).live, left - 1);
    }
  }

  /** One more try comes before the rest. */
  lemma TryFirst(w: World, s: Setting, k: nat, live: bool, retries: nat)
    ensures var reply := w.reply(k);
      var now := live && reply.live;
      var r := Unmounting(w, s, k, live, retries);
      var c := Umount(reply.error, now);
      if reply.error.None? && s.realRunner then r == Prepend(c, Waiting(w, s, k + 1, now, MAX_PROBES))
      else if BusyUmount(c, s) && retries > 0 && w.context(k).GoesOn? then
        r == Prepend(c, Unmounting(w, s, k + 1, now, retries - 1))
      else r.commands == [c] && r.live == now && (r.error.None? <==> reply.error.None?)
  {
    hide UnmountBusy, Message;
  }

  /**
   * At most so many retries, each made only because the try before it found the
   * mount busy; what comes after the tries are at most 200 probes.
   */
  lemma {:induction false} UnmountTries(w: World, s: Setting, k: nat, live: bool, retries: nat)
    ensures var r := Unmounting(w, s, k, live, retries);
      && 0 < |r.commands| <= retries + 1 + MAX_PROBES && r.commands[0].Umount?
      && forall i :: 0 < i < |r.commands| && r.commands[i].Umount? ==> i <= retries && BusyUmount(r.commands[i - 1], s)
    decreases retries
  {
    hide BusyUmount, Unmounting, Waiting;
    TryFirst(w, s, k, live, retries);
    var reply := w.reply(k);
    var now := live && reply.live;
    if reply.error.None? && s.realRunner {
      OnlyProbes(w, s, k + 1, now, MAX_PROBES);
    } else if BusyUmount(Umount(reply.error, now), s) && retries > 0 && w.context(k).GoesOn? {
      UnmountTries(w, s, k + 1, now, retries - 1);
    }
  }

  /** The command with this number finds the mount busy, and the context goes on. */
  ghost predicate FindsBusy(w: World, s: Setting, k: nat) {
    w.reply(k).error.Some? && UnmountBusy(Message(w.reply(k).error.value, s)) && w.context(k).GoesOn?
  }

  /** The command with this number works, and the context goes on. */
  ghost predicate Answers(w: World, k: nat) {
    w.reply(k).error.None? && w.context(k).GoesOn?
  }

  lemma {:induction false} TriesOn(w: World, s: Setting, k: nat, live: bool, retries: nat, n: nat)
    returns (now: bool)
    requires n <= retries && forall i :: k <= i < k + n ==> FindsBusy(w, s, i)
    ensures
      var r, rest := Unmounting(w, s, k, live, retries), Unmounting(w, s, k + n, now, retries - n);
      r.error == rest.error && |r.commands| == n + |rest.commands|
    decreases n
  {
    hide UnmountBusy, Message;
    if n > 0 {
      hide FindsBusy;
      now := TriesOn(w, s, k + 1, live && w.reply(k).live, retries - 1, n - 1);
      BusyFirst(w, s, k, live, retries);
    } else {
      now := live;
    }
  }

  lemma BusyFirst(w: World, s: Setting, k: nat, live: bool, retries: nat)
    requires retries > 0 && FindsBusy(w, s, k)
    ensures var r, rest :=
        Unmounting(w, s, k, live, retries), Unmounting(w, s, k + 1, live && w.reply(k).live, retries - 1);
      r.error == rest.error && |r.commands| == 1 + |rest.commands|
  {
    hide UnmountBusy, Message;
  }

  lemma {:induction false} ProbesOn(w: World, s: Setting, k: nat, live: bool, left: nat, m: nat)
    requires m <= left && forall i :: k <= i < k + m ==> Answers(w, i)
    ensures var r := Waiting(w, s, k, live, left);
      if m == left then r.error == Some(NotSettled(s.mountPoint)) && |r.commands| == m
      else w.reply(k + m).error.Some? ==> r.error.None? && |r.commands| == m + 1
    decreases m
  {
    if m > 0 {
      assert Answers(w, k);
      ProbesOn(w, s, k + 1, live && w.reply(k).live, left - 1, m - 1);
    }
  }

  /**
   * How patient Unmount is. A mount that is busy for n <= 20 tries and then lets go is
   * unmounted; with the real runner it may show up in m < 200 probes before it is gone.
   */
  lemma WaitsForBusyMount(w: World, s: Setting, k: nat, live: bool, n: nat, m: nat)
    requires n <= 20 && (forall i :: k <= i < k + n ==> FindsBusy(w, s, i)) && w.reply(k + n).error.None?
    requires s.realRunner ==> m < 200 && forall i :: k + n < i <= k + n + m ==> Answers(w, i)
    requires s.realRunner ==> w.reply(k + n + m + 1).error.Some?
    ensures var r := Unmounting(w, s, k, live, MAX_RETRIES);
      r.error.None? && |r.commands| == n + 1 + (if s.realRunner then m + 1 else 0)
  {
    hide FindsBusy, Answers, Waiting;
    var now := TriesOn(w, s, k, live, MAX_RETRIES, n);
    if s.realRunner { ProbesOn(w, s, k + n + 1, now && w.reply(k + n).live, MAX_PROBES, m); }
  }

  /** It gives up on a busy mount after 21 tries. */
  lemma GivesUpOnBusy(w: World, s: Setting, k: nat, live: bool)
    requires forall i :: k <= i <= k + 20 ==> FindsBusy(w, s, i)
    ensures var r := Unmounting(w, s, k, live, MAX_RETRIES);
      && |r.commands| == 21 && w.reply(k + 20).error.Some?
      && r.error == Some(Message(w.reply(k + 20).error.value, s))
  {
    hide Message, UnmountBusy;
    assert FindsBusy(w, s, k + 20);
    var now := TriesOn(w, s, k, live, MAX_RETRIES, 20);
    hide FindsBusy, Waiting;
  }

  /** It gives up on an unmounted mount that is still there after 200 probes. */
  lemma GivesUpOnSettling(w: World, s: Setting, k: nat, live: bool)
    requires s.realRunner && w.reply(k).error.None? && forall i :: k < i <= k + 200 ==> Answers(w, i)
    ensures var r := Unmounting(w, s, k, live, MAX_RETRIES);
      |r.commands| == 201 && r.error == Some(NotSettled(s.mountPoint))
  {
    hide Answers, Waiting;
    ProbesOn(w, s, k + 1, live && w.reply(k).live, MAX_PROBES, 200);
  }

  /**
   * Success is claimed on the word of the last command: a probe that failed with the
   * real runner, a clean unmount with any other.
   */
  lemma {:induction false} SuccessIsLastWord(w: World, s: Setting, k: nat, live: bool, retries: nat)
    ensures var r := Unmounting(w, s, k, live, retries);
      r.error.None? ==>
        r.commands != [] && Last(r.commands) == if s.realRunner then Probe(true, r.live) else Umount(None, r.live)
    decreases retries
  {
    hide BusyUmount, Unmounting, Waiting;
    TryFirst(w, s, k, live, retries);
    var reply := w.reply(k);
    var now := live && reply.live;
    if reply.error.None? && s.realRunner {
      OnlyProbes(w, s, k + 1, now, MAX_PROBES);
    } else if BusyUmount(Umount(reply.error, now), s) && retries > 0 && w.context(k).GoesOn? {
      SuccessIsLastWord(w, s, k + 1, now, retries - 1);
    }
  }

  /**
   * No command says that a live mount is gone: umount does not report it in its own
   * words, an injected runner does not report success, and mountpoint does not fail.
   */
  predicate HonestCommand(c: Command, realRunner: bool) {
    match c
    case Umount(None, live) => realRunner || !live
    case Umount(Some(own), live) => AlreadyUnmounted(own) ==> !live
    case Probe(failed, live) => failed ==> !live
  }

  predicate Honest(commands: seq<Command>, realRunner: bool) {
    forall i :: 0 <= i < |commands| ==> HonestCommand(commands[i], realRunner)
  }

  /** The mount point's name does not make a message read "already unmounted". */
  predicate Neutral(s: Setting) {
    !AlreadyUnmounted(CommandLine(s.backend, s.mountPoint)) && !AlreadyUnmounted(NotSettled(s.mountPoint))
  }

  /** The names that cannot mislead: none can on the kernel backend, or when messages do not contain them. */
  predicate Safe(s: Setting) {
    s.backend.Kernel? || !s.realRunner || Neutral(s)
  }

  lemma HonestTail(c: Command, rest: seq<Command>, realRunner: bool)
    requires Honest([c] + rest, realRunner)
    ensures HonestCommand(c, realRunner) && Honest(rest, realRunner)
  {
    var all := [c] + rest;
    assert all[0] == c;
    assert forall i :: 0 <= i < |rest| ==> rest[i] == all[i + 1];
  }

  lemma {:induction false} HonestWaiting(w: World, s: Setting, k: nat, live: bool, left: nat)
    requires Safe(s) && s.realRunner
    ensures var r := Waiting(w, s, k, live, left);
      Honest(r.commands, s.realRunner) && Accepted(r.error, s.backend) ==> !r.live
    decreases left
  {
    hide AlreadyUnmounted;
    StoppedIsNotUnmounted(false);
    StoppedIsNotUnmounted(true);
    if left > 0 {
      var reply := w.reply(k);
      var c, rest := Probe(reply.error.Some?, live && reply.live), Waiting(w, s, k + 1, live && reply.live, left - 1);
      if reply.error.None? && w.context(k).GoesOn? {
        HonestWaiting(w, s, k + 1, live && reply.live, left - 1);
        if Honest([c] + rest.commands, s.realRunner) { HonestTail(c, rest.commands, s.realRunner); }
      } else if Honest([c], s.realRunner) {
        assert [c][0] == c;
      }
    }
  }

  /** With honest commands and a name that cannot mislead, rollback goes on only when the mount is gone. */
  lemma {:induction false} HonestUnmounting(w: World, s: Setting, k: nat, live: bool, retries: nat)
    requires Safe(s)
    ensures var r := Unmounting(w, s, k, live, retries);
      Honest(r.commands, s.realRunner) && Accepted(r.error, s.backend) ==> !r.live
    decreases retries
  {
    hide AlreadyUnmounted, UnmountBusy;
    StoppedIsNotUnmounted(false);
    StoppedIsNotUnmounted(true);
    var reply := w.reply(k);
    var now := live && reply.live;
    var c := Umount(reply.error, now);
    var r := Unmounting(w, s, k, live, retries);
    if Honest(r.commands, s.realRunner) {
      if r.commands == [c] {
        assert [c][0] == c;
        if reply.error.Some? { ReportReads(CommandLine(s.backend, s.mountPoint), reply.error.value); }
      } else if reply.error.None? {
        var rest := Waiting(w, s, k + 1, now, MAX_PROBES);
        HonestTail(c, rest.commands, s.realRunner);
        HonestWaiting(w, s, k + 1, now, MAX_PROBES);
      } else {
        var rest := Unmounting(w, s, k + 1, now, retries - 1);
        HonestTail(c, rest.commands, s.realRunner);
        HonestUnmounting(w, s, k + 1, now, retries - 1);
      }
    }
  }

  // -- When the layers are safe -------------------------------------------------------------

  /** Honest commands, and yet rollback goes on under a live mount. */
  ghost predicate Misled(w: World, s: Setting) {
    var r := Unmounting(w, s, 0, true, MAX_RETRIES);
    Honest(r.commands, s.realRunner) && Accepted(r.error, s.backend) && r.live
  }

  /** A world in which every command gives one answer and the mount stays. */
  function Steady(error: Option<string>): World {
    World((k: nat) => Reply(error, true), (k: nat) => GoesOn)
  }

  lemma {:induction false} AlwaysFailing(s: Setting, own: string, k: nat, retries: nat)
    requires s.realRunner && AlreadyUnmounted(CommandLine(s.backend, s.mountPoint)) && !AlreadyUnmounted(own)
    ensures var r := Unmounting(Steady(Some(own)), s, k, true, retries);
      Honest(r.commands, true) && r.error.Some? && AlreadyUnmounted(r.error.value) && r.live
    decreases retries
  {
    hide UnmountBusy;
    ReportReads(CommandLine(s.backend, s.mountPoint), own);
    if UnmountBusy(Message(own, s)) && retries > 0 { AlwaysFailing(s, own, k + 1, retries - 1); }
  }

  function Busy(): string { "device or resource busy" }

  lemma BusyChars()
    ensures 'n' !in Busy() && forall i :: 0 <= i < |Busy()| ==> LowerChar(Busy()[i]) == Busy()[i]
  {
  }

  lemma GoneWordsHaveN(i: nat) returns (k: nat)
    requires i < |GoneWords()|
    ensures k < |GoneWords()[i]| && GoneWords()[i][k] == 'n'
  {
    k := if i == 0 then 1 else 0;
  }

  lemma BusyIsBusyWord()
    ensures |BusyWords()| > 0 && BusyWords()[0] == Busy()
  {
  }

  /** A busy mount is reported honestly: it reads busy and not unmounted. */
  lemma BusyIsHonest()
    ensures UnmountBusy(Busy()) && !AlreadyUnmounted(Busy())
  {
    BusyChars();
    BusyIsBusyWord();
    hide Busy, GoneWords, BusyWords;
    LowerWord(Busy());
    assert Busy()[0..] == Busy();
    ContainsAt(Busy(), Busy(), 0);
    assert Contains(Busy(), BusyWords()[0]);
    forall i | 0 <= i < |GoneWords()| ensures !Contains(Busy(), GoneWords()[i]) {
      var k := GoneWordsHaveN(i);
      if Contains(Busy(), GoneWords()[i]) { ContainsChars(Busy(), GoneWords()[i], k); }
    }
  }

  lemma {:induction false} NeverSettling(s: Setting, k: nat, left: nat)
    ensures var r := Waiting(Steady(None), s, k, true, left);
      Honest(r.commands, true) && r.error == Some(NotSettled(s.mountPoint)) && r.live
    decreases left
  {
    if left > 0 { NeverSettling(s, k + 1, left - 1); }
  }

  /**
   * Whether honest commands keep the layers safe is decided by the setting alone:
   * they do exactly on the kernel backend, with an injected runner, or with a mount
   * point whose name does not read "already unmounted".
   */
  lemma SafeExactly(s: Setting)
    ensures Safe(s) <==> forall w :: !Misled(w, s)
  {
    hide AlreadyUnmounted;
    if Safe(s) {
      forall w ensures !Misled(w, s) { HonestUnmounting(w, s, 0, true, MAX_RETRIES); }
    } else if AlreadyUnmounted(CommandLine(s.backend, s.mountPoint)) {
      BusyIsHonest();
      AlwaysFailing(s, Busy(), 0, MAX_RETRIES);
      assert Misled(Steady(Some(Busy())), s);
    } else {
      NeverSettling(s, 1, MAX_PROBES);
      assert Misled(Steady(None), s);
    }
  }

  lemma WordInside(before: string, word: string, after: string)
    ensures Contains(before + word + after, word)
  {
    assert (before + word + after)[|before|..] == word + after;
    ContainsAt(before + word + after, word, |before|);
  }

  /** A command line with one of the words in it, in any case, reads "already unmounted". */
  lemma WordReads(before: string, written: string, after: string)
    requires ToLower(written) in GoneWords()
    ensures AlreadyUnmounted(before + written + after)
  {
    hide GoneWords, ToLower, Contains;
    LowerConcat(before + written, after);
    LowerConcat(before, written);
    WordInside(ToLower(before), ToLower(written), ToLower(after));
    var i :| 0 <= i < |GoneWords()| && GoneWords()[i] == ToLower(written);
    assert Contains(ToLower(before + written + after), GoneWords()[i]);
  }

  function NotMounted(): string { "not mounted" }

  function Nvalid(): string { "nvalid argument" }

  function Dotted(): string { "\U{0130}" + Nvalid() }

  lemma NotMountedIsWord()
    ensures ToLower(NotMounted()) in GoneWords()
  {
    assert forall i :: 0 <= i < |NotMounted()| ==> LowerChar(NotMounted()[i]) == NotMounted()[i];
    LowerWord(NotMounted());
    assert GoneWords()[2] == NotMounted();
  }

  lemma NvalidIsLower()
    ensures forall i :: 0 <= i < |Nvalid()| ==> LowerChar(Nvalid()[i]) == Nvalid()[i]
  {
  }

  lemma InvalidIsWord()
    ensures |GoneWords()| == 3 && GoneWords()[0] == ['i'] + Nvalid()
  {
  }

  lemma LowerCons(c: char, s: string)
    ensures ToLower([c] + s) == [LowerChar(c)] + ToLower(s)
  {
    assert ([c] + s)[1..] == s;
  }

  lemma DottedIsWord()
    ensures ToLower(Dotted()) in GoneWords()
  {
    hide Nvalid, GoneWords, ToLower;
    NvalidIsLower();
    LowerWord(Nvalid());
    InvalidIsWord();
    LowerCons('\U{0130}', Nvalid());
    assert GoneWords()[0] in GoneWords();
  }

  lemma Regrouped(a: string, parent: string, written: string, rest: string, z: string)
    ensures a + (parent + written + rest) + z == (a + parent) + written + (rest + z)
  {
  }

  lemma LineReads(parent: string, written: string, rest: string)
    requires ToLower(written) in GoneWords()
    ensures AlreadyUnmounted(CommandLine(Fuse, parent + written + rest))
  {
    hide AlreadyUnmounted, GoneWords, ToLower;
    WordReads("fusermount3 -u " + parent, written, rest + " failed");
    Regrouped("fusermount3 -u ", parent, written, rest, " failed");
  }

  /**
   * With one of the words in its name, as in /run/not mounted/merged, a mount point on
   * FUSE has its layers discarded although every try has found the mount busy.
   */
  lemma MisleadingNames(parent: string, written: string, rest: string)
    requires ToLower(written) in GoneWords()
    ensures var s := Setting(Fuse, parent + written + rest, true); !Safe(s) && Misled(Steady(Some(Busy())), s)
  {
    hide AlreadyUnmounted, UnmountBusy, Unmounting, Busy, GoneWords;
    var s := Setting(Fuse, parent + written + rest, true);
    LineReads(parent, written, rest);
    BusyIsHonest();
    AlwaysFailing(s, Busy(), 0, MAX_RETRIES);
  }

  /** Two such words: the plain one, and one whose capital I has a dot. */
  lemma MisleadingWords(parent: string, rest: string)
    ensures forall written :: written in {NotMounted(), Dotted()} ==>
      var s := Setting(Fuse, parent + written + rest, true); !Safe(s) && Misled(Steady(Some(Busy())), s)
  {
    hide Safe, Misled, Busy, NotMounted, Dotted, GoneWords, ToLower;
    NotMountedIsWord();
    DottedIsWord();
    MisleadingNames(parent, NotMounted(), rest);
    MisleadingNames(parent, Dotted(), rest);
  }

  lemma LowerWord(word: string)
    requires forall i :: 0 <= i < |word| ==> LowerChar(word[i]) == word[i]
    ensures ToLower(word) == word
  {
    assert forall i :: 0 <= i < |word| ==> ToLower(word)[i] == word[i];
  }

  /** umount exits cleanly and leaves the mount; mountpoint then fails for a reason of its own. */
  function BrokenProbe(): World {
    World((k: nat) => Reply(if k == 0 then None else Some("mountpoint: not found"), true), (k: nat) => GoesOn)
  }

  /**
   * A probe that fails while the mount is live is taken for success whatever the
   * backend and the name, so that the probes have to be honest, too.
   */
  lemma BrokenProbeMisleads(s: Setting)
    requires s.realRunner
    ensures var r := Unmounting(BrokenProbe(), s, 0, true, MAX_RETRIES);
      Accepted(r.error, s.backend) && r.live && r.commands == [Umount(None, true), Probe(true, true)]
  {
  }

  // -- The manager -------------------------------------------------------------------------

  datatype Layer = Kept | Damaged | Missing | Empty

  class Manager {
    const setting: Setting
    const world: World
    const layoutValid: bool
    var ran: nat          // commands run so far
    ghost var live: bool  // is the overlay mounted?
    ghost var commands: seq<Command>
    var upper: Layer
    var work: Layer
    ghost var faults: nat // file operations and mounts that failed of their own accord

    constructor (setting: Setting, world: World, layoutValid: bool)
      ensures !live && upper == Empty && work == Empty && ran == 0 && faults == 0
      ensures this.setting == setting && this.world == world && this.layoutValid == layoutValid
    {
      this.setting := setting;
      this.world := world;
      this.layoutValid := layoutValid;
      ran, live, commands, faults := 0, false, [], 0;
      upper, work := Empty, Empty;
    }

    /** Mount: the agent may write to the layers from now on. */
    method Mount() returns (ok: bool)
      modifies this
      ensures Works(old(faults), ok, layoutValid)
      ensures ok ==> live && upper == Kept && work == Kept
      ensures !ok ==> upper == old(upper) && work == old(work)
      ensures ran == old(ran) && commands == old(commands)
    {
      if !layoutValid { return false; }
      ok := *;
      ghost var half: bool := *;
      if ok {
        upper, work, live := Kept, Kept, true;
      } else {
        live, faults := half, faults + 1;
      }
    }

    /** What could be done was done exactly when nothing failed since. */
    ghost predicate Works(before: nat, ok: bool, possible: bool)
      reads this`faults
    {
      before <= faults && (ok <==> possible && faults == before)
    }

    /** Run one command; the words of its failure, if it fails. */
    method Execute(probe: bool) returns (error: Option<string>)
      modifies this`ran, this`live, this`commands
      ensures ran == old(ran) + 1 && error == world.reply(old(ran)).error
      ensures live == (old(live) && world.reply(old(ran)).live)
      ensures commands == old(commands) + [if probe then Probe(error.Some?, live) else Umount(error, live)]
    {
      error := world.reply(ran).error;
      live := live && world.reply(ran).live;
      commands := commands + [if probe then Probe(error.Some?, live) else Umount(error, live)];
      ran := ran + 1;
    }

    /** waitForUnmount. */
    method WaitForUnmount() returns (error: Option<string>)
      modifies this`ran, this`live, this`commands
      ensures Ended(Waiting(world, setting, old(ran), old(live), MAX_PROBES), error, old(commands))
    {
      hide Waiting, Resumed;
      ghost var whole := Waiting(world, setting, ran, live, MAX_PROBES);
      ghost var done: seq<Command> := [];
      NothingDone(whole);
      for attempt := 0 to MAX_PROBES
        invariant commands == old(commands) + done
        invariant whole == Resumed(done, Waiting(world, setting, ran, live, MAX_PROBES - attempt))
      {
        OneProbe(world, setting, ran, live, MAX_PROBES - attempt, done);
        var failed := Execute(true);
        done := done + [Probe(failed.Some?, live)];
        if failed.Some? { return None; }
        match world.context(ran - 1)
        case Done(expired) => return Some(Stopped(expired));
        case GoesOn =>
      }
      NoProbesLeft(world, setting, ran, live, done);
      return Some(NotSettled(setting.mountPoint));
    }

    /** The wait after a clean umount, as the last part of a call that began earlier. */
    method Settle(ghost start: seq<Command>, ghost done: seq<Command>) returns (error: Option<string>)
      requires commands == start + done
      modifies this`ran, this`live, this`commands
      ensures Ended(Resumed(done, Waiting(world, setting, old(ran), old(live), MAX_PROBES)), error, start)
    {
      hide Waiting;
      ghost var rest := Waiting(world, setting, ran, live, MAX_PROBES);
      error := WaitForUnmount();
      assert start + done + rest.commands == start + (done + rest.commands);
    }

    /** Part of a call has been carried out; what is left of it are tries with so many retries. */
    ghost predicate Underway(whole: Run, start: seq<Command>, done: seq<Command>, retries: nat)
      reads this
    {
      commands == start + done && whole == Resumed(done, Unmounting(world, setting, ran, live, retries))
    }

    /** One try: it is over, or the mount was busy and there are retries left. */
    method Try(retries: nat, ghost whole: Run, ghost start: seq<Command>, ghost done: seq<Command>)
      returns (over: bool, error: Option<string>, ghost more: seq<Command>)
      requires Underway(whole, start, done, retries)
      modifies this`ran, this`live, this`commands
      ensures over ==> Ended(whole, error, start)
      ensures !over ==> retries > 0 && Underway(whole, start, more, retries - 1)
    {
      hide Waiting, Unmounting, Resumed, UnmountBusy, Message;
      OneTry(world, setting, ran, live, retries, done);
      var own := Execute(false);
      more := done + [Umount(own, live)];
      if own.None? {
        error := None;
        if setting.realRunner { error := Settle(start, more); }
        return true, error, more;
      }
      var message := Message(own.value, setting);
      if !UnmountBusy(message) || retries == 0 { return true, Some(message), more; }
      match world.context(ran - 1)
      case Done(expired) => return true, Some(Stopped(expired)), more;
      case GoesOn => return false, None, more;
    }

    /** The loop over the tries. */
    method TryAll(ghost whole: Run, ghost start: seq<Command>) returns (error: Option<string>)
      requires Underway(whole, start, [], MAX_RETRIES)
      modifies this`ran, this`live, this`commands
      ensures Ended(whole, error, start)
    {
      hide Unmounting, Resumed, Ended, Underway;
      ghost var done: seq<Command> := [];
      var attempt := 0;
      var over := false;
      error := None;
      while !over
        invariant over ==> Ended(whole, error, start)
        invariant !over ==> 0 <= attempt <= MAX_RETRIES && Underway(whole, start, done, MAX_RETRIES - attempt)
        decreases !over, MAX_RETRIES - attempt
      {
        over, error, done := Try(MAX_RETRIES - attempt, whole, start, done);
        attempt := attempt + 1;
      }
    }

    /** Unmount. */
    method Unmount() returns (error: Option<string>)
      modifies this`ran, this`live, this`commands
      ensures !layoutValid ==> error.Some? && commands == old(commands) && live == old(live)
      ensures layoutValid ==>
        Ended(Unmounting(world, setting, old(ran), old(live), MAX_RETRIES), error, old(commands))
    {
      hide BadLayout, Unmounting, Ended;
      if !layoutValid { return Some(BadLayout()); }
      ghost var whole := Unmounting(world, setting, ran, live, MAX_RETRIES);
      NothingDone(whole);
      error := TryAll(whole, commands);
    }

    /** RemoveAll, then MkdirAll, of one layer directory. */
    method Discard(layer: Layer) returns (left: Layer, ok: bool)
      modifies this`faults
      ensures Works(old(faults), ok, true)
      ensures ok ==> left == Empty
      ensures left == layer || left != Kept
    {
      var removed: bool := *;
      var touched: bool := *;
      if !removed {
        faults := faults + 1;
        return (if touched then Damaged else layer), false;
      }
      var made: bool := *;
      if !made {
        faults := faults + 1;
        return Missing, false;
      }
      return Empty, true;
    }

    /**
     * Rollback goes on to the layers exactly when Unmount's end is accepted; then, if
     * the name cannot mislead and the commands were honest, the mount is gone.
     */
    method Rollback() returns (ok: bool, ghost r: Run)
      modifies this
      ensures r == Unmounting(world, setting, old(ran), old(live), MAX_RETRIES)
      ensures layoutValid ==> live == r.live && commands == old(commands) + r.commands
      ensures Works(old(faults), ok, layoutValid && Accepted(r.error, setting.backend))
      ensures ok ==> upper == Empty && work == Empty
      ensures !layoutValid || !Accepted(r.error, setting.backend) ==> !ok && upper == old(upper) && work == old(work)
      ensures ok || upper != old(upper) || work != old(work)
        ==> Safe(setting) && Honest(r.commands, setting.realRunner) ==> !live
      ensures upper == old(upper) || upper != Kept
      ensures work == old(work) || work != Kept
    {
      hide Unmounting, Safe, Honest;
      r := Unmounting(world, setting, ran, live, MAX_RETRIES);
      if !layoutValid { return false, r; }
      if Safe(setting) { HonestUnmounting(world, setting, ran, live, MAX_RETRIES); }
      var error := Unmount();
      if error.Some? && !(setting.backend.Fuse? && AlreadyUnmounted(error.value)) { return false, r; }
      var cleared: bool;
      upper, cleared := Discard(upper);
      if !cleared { return false, r; }
      work, ok := Discard(work);
    }

    /** The call has ended as the function says, with these commands run since. */
    ghost predicate Ended(r: Run, error: Option<string>, before: seq<Command>)
      reads this
    {
      r.error == error && r.live == live && commands == before + r.commands
    }
  }

  /** The rest of a call, after some of its commands. */
  function Resumed(done: seq<Command>, r: Run): Run {
    r.(commands := done + r.commands)
  }

  lemma OneProbe(w: World, s: Setting, k: nat, live: bool, left: nat, done: seq<Command>)
    requires left > 0
    ensures var now := live && w.reply(k).live;
      var more := done + [Probe(w.reply(k).error.Some?, now)];
      Resumed(done, Waiting(w, s, k, live, left)) ==
        if w.reply(k).error.Some? then Run(None, more, now)
        else if w.context(k).Done? then Run(Some(Stopped(w.context(k).expired)), more, now)
        else Resumed(more, Waiting(w, s, k + 1, now, left - 1))
  {
    var now := live && w.reply(k).live;
    var c := Probe(w.reply(k).error.Some?, now);
    var rest := Waiting(w, s, k + 1, now, left - 1).commands;
    assert done + ([c] + rest) == (done + [c]) + rest;
  }

  lemma NothingDone(r: Run)
    ensures Resumed([], r) == r
  {
    assert [] + r.commands == r.commands;
  }

  lemma NoProbesLeft(w: World, s: Setting, k: nat, live: bool, done: seq<Command>)
    ensures Resumed(done, Waiting(w, s, k, live, 0)) == Run(Some(NotSettled(s.mountPoint)), done, live)
  {
    assert done + [] == done;
  }

  lemma OneTry(w: World, s: Setting, k: nat, live: bool, retries: nat, done: seq<Command>)
    ensures var now := live && w.reply(k).live;
      var error := w.reply(k).error;
      var more := done + [Umount(error, now)];
      Resumed(done, Unmounting(w, s, k, live, retries)) ==
        if error.None? then
          if s.realRunner then Resumed(more, Waiting(w, s, k + 1, now, MAX_PROBES)) else Run(None, more, now)
        else if !UnmountBusy(Message(error.value, s)) || retries == 0 then Run(Some(Message(error.value, s)), more, now)
        else if w.context(k).Done? then Run(Some(Stopped(w.context(k).expired)), more, now)
        else Resumed(more, Unmounting(w, s, k + 1, now, retries - 1))
  {
    hide UnmountBusy, Message, Waiting;
    var now := live && w.reply(k).live;
    var c := Umount(w.reply(k).error, now);
    var probes := Waiting(w, s, k + 1, now, MAX_PROBES).commands;
    assert done + ([c] + probes) == (done + [c]) + probes;
    if retries > 0 {
      var rest := Unmounting(w, s, k + 1, now, retries - 1).commands;
      assert done + ([c] + rest) == (done + [c]) + rest;
    }
  }
}
