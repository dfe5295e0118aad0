/** Rewriting the managed block (internal/cron/cron.go, Sync) and what a second rewrite sees. */
module CrontabSync {
  import opened Common
  import opened Texts
  import opened Splits
  import opened CronFields
  import opened Crontab

  function TrimNewlines(s: string): (r: string)
    ensures r <= s && (r != "" ==> r[|r| - 1] != '\n')
  {
    if s != "" && s[|s| - 1] == '\n' then TrimNewlines(s[..|s| - 1]) else s
  }

  /** The hand-written text that a rewrite keeps. */
  function Kept(m: Marks, cur: string): string { TrimNewlines(Stripped(m, cur)) }

  /** Each line with its newline. */
  function Unlines(lines: seq<string>): string {
    if lines == [] then "" else lines[0] + "\n" + Unlines(lines[1..])
  }

  function Lines(jobs: seq<Job>): (r: seq<string>)
    ensures |r| == |jobs| && forall i | 0 <= i < |jobs| :: r[i] == Line(jobs[i])
  {
    seq(|jobs|, i requires 0 <= i < |jobs| => Line(jobs[i]))
  }

  function KeptLines(m: Marks, cur: string): seq<string> {
    if Kept(m, cur) == "" then [] else Split(Kept(m, cur), '\n')
  }

  function Block(m: Marks, jobs: seq<Job>): seq<string> {
    if jobs == [] then [] else [m.begin] + Lines(jobs) + [m.end]
  }

  /** The crontab that a rewrite leaves: the kept lines, then the block, one line for each job. */
  function Synced(m: Marks, cur: string, jobs: seq<Job>): string {
    Unlines(KeptLines(m, cur) + Block(m, jobs))
  }

  // ---- Lines and text ----

  lemma {:induction false} UnlinesJoin(a: seq<string>, b: seq<string>)
    ensures Unlines(a + b) == Unlines(a) + Unlines(b)
  {
    if a == [] {
      assert a + b == b;
    } else {
      UnlinesJoin(a[1..], b);
      assert (a + b)[1..] == a[1..] + b;
    }
  }

  lemma UnlinesMore(lines: seq<string>, line: string)
    ensures Unlines(lines + [line]) == Unlines(lines) + line + "\n"
  {
    UnlinesJoin(lines, [line]);
    assert Unlines([line]) == line + "\n" + Unlines([]);
  }

  lemma {:induction false} SplitUnlines(lines: seq<string>)
    requires Without(lines, '\n')
    ensures Split(Unlines(lines), '\n') == lines + [""]
  {
    if lines != [] {
      SplitUnlines(lines[1..]);
      SplitOne(lines[0], '\n');
      SplitAppend(lines[0], Unlines(lines[1..]), '\n');
      assert [lines[0]] + (lines[1..] + [""]) == lines + [""];
    }
  }

  lemma {:induction false} JoinUnlines(lines: seq<string>)
    ensures Join(lines + [""], "\n") == Unlines(lines)
  {
    if lines != [] {
      JoinUnlines(lines[1..]);
      assert (lines + [""])[1..] == lines[1..] + [""];
    }
  }

  /** Text without newlines at its end, cut into lines, is that text with one newline. */
  lemma UnlinesSplit(s: string)
    ensures Unlines(Split(s, '\n')) == s + "\n"
  {
    SplitAppend(s, "", '\n');
    assert s + ['\n'] + "" == s + "\n";
    JoinSplit(s + "\n", '\n');
    JoinUnlines(Split(s, '\n'));
  }

  /** `lines` is `kept` followed by empty lines. */
  ghost predicate BlankAfter(kept: seq<string>, lines: seq<string>) {
    kept <= lines && forall i | |kept| <= i < |lines| :: lines[i] == ""
  }

  /** Trimming newlines only drops empty lines at the end. */
  lemma {:induction false} TrimDropsLines(s: string)
    ensures BlankAfter(Split(TrimNewlines(s), '\n'), Split(s, '\n'))
  {
    if s != "" && s[|s| - 1] == '\n' {
      var t := s[..|s| - 1];
      TrimDropsLines(t);
      SplitAppend(t, "", '\n');
      assert t + ['\n'] + "" == s;
    }
  }

  // ---- The kept lines hold no marker ----

  lemma {:induction false} OutsideHasNoBlock(m: Marks, lines: seq<string>)
    requires Without(lines, '\n')
    ensures NoBlock(m, Outside(m, lines)) && Without(Outside(m, lines), '\n')
  {
    if lines != [] {
      OutsideHasNoBlock(m, lines[..|lines| - 1]);
    }
  }

  lemma KeptHasNoBlock(m: Marks, cur: string)
    requires Sound(m)
    ensures NoBlock(m, KeptLines(m, cur)) && Without(KeptLines(m, cur), '\n')
  {
    JoinSplit(cur, '\n');
    var outside := Outside(m, Split(cur, '\n'));
    OutsideHasNoBlock(m, Split(cur, '\n'));
    JoinSplit(Kept(m, cur), '\n');
    if Kept(m, cur) != "" {
      SplitJoin(outside, '\n');
      TrimDropsLines(Stripped(m, cur));
      forall i | 0 <= i < |KeptLines(m, cur)| ensures !Begins(m, KeptLines(m, cur)[i]) {
        assert KeptLines(m, cur)[i] == outside[i];
      }
    }
  }

  /** The hand-written lines are kept, all of them and in order, up to empty lines at the end. */
  lemma HandLinesKept(m: Marks, cur: string)
    ensures BlankAfter(KeptLines(m, cur), Outside(m, Split(cur, '\n')))
  {
    var outside := Outside(m, Split(cur, '\n'));
    JoinSplit(cur, '\n');
    OutsideHasNoBlock(m, Split(cur, '\n'));
    if outside != [] {
      SplitJoin(outside, '\n');
      TrimDropsLines(Stripped(m, cur));
      assert BlankAfter(Split(Kept(m, cur), '\n'), outside);
      if Kept(m, cur) == "" { assert Split(Kept(m, cur), '\n') == [""]; }
    }
  }

  // ---- Stripping the new crontab ----

  ghost predicate AllJobs(jobs: seq<Job>) {
    forall i | 0 <= i < |jobs| :: IsJob(jobs[i])
  }

  /** Lines that are no markers. */
  ghost predicate Unmarked(m: Marks, lines: seq<string>) {
    forall i | 0 <= i < |lines| :: !Begins(m, lines[i]) && !Ends(m, lines[i])
  }

  lemma JobsUnmarked(m: Marks, jobs: seq<Job>)
    requires Sound(m) && AllJobs(jobs)
    ensures Unmarked(m, Lines(jobs))
  {
    forall i | 0 <= i < |jobs| ensures !Begins(m, Lines(jobs)[i]) && !Ends(m, Lines(jobs)[i]) {
      LineIsOneLine(jobs[i]);
    }
  }

  lemma OneMoreLine(m: Marks, lines: seq<string>, line: string)
    ensures Inside(m, lines + [line]) <==> Begins(m, line) || (Inside(m, lines) && !Ends(m, line))
    ensures Outside(m, lines + [line]) == Outside(m, lines) + if Begins(m, line) || Inside(m, lines) then [] else [line]
  {
    assert (lines + [line])[..|lines|] == lines;
  }

  lemma {:induction false} StayInside(m: Marks, before: seq<string>, more: seq<string>)
    requires Unmarked(m, more) && Inside(m, before)
    ensures Inside(m, before + more) && Outside(m, before + more) == Outside(m, before)
  {
    if more == [] {
      assert before + more == before;
    } else {
      var init := more[..|more| - 1];
      StayInside(m, before, init);
      OneMoreLine(m, before + init, Last(more));
      assert before + init + [Last(more)] == before + more;
    }
  }

  lemma MarksApart(m: Marks)
    requires Sound(m)
    ensures Begins(m, m.begin) && Ends(m, m.end) && !Begins(m, m.end) && !Begins(m, "")
  {
  }

  lemma Opened(m: Marks, lines: seq<string>, more: seq<string>)
    requires NoBlock(m, lines) && Unmarked(m, more)
    ensures Inside(m, lines + [m.begin] + more) && Outside(m, lines + [m.begin] + more) == lines
  {
    AllOutside(m, lines);
    OneMoreLine(m, lines, m.begin);
    StayInside(m, lines + [m.begin], more);
  }

  lemma Wrapped(m: Marks, lines: seq<string>, more: seq<string>)
    requires Sound(m) && NoBlock(m, lines) && Unmarked(m, more)
    ensures !Inside(m, lines + [m.begin] + more + [m.end]) && Outside(m, lines + [m.begin] + more + [m.end]) == lines
  {
    MarksApart(m);
    Opened(m, lines, more);
    OneMoreLine(m, lines + [m.begin] + more, m.end);
  }

  lemma MarkedBlock(m: Marks, lines: seq<string>, jobs: seq<Job>)
    requires Sound(m) && AllJobs(jobs) && NoBlock(m, lines) && jobs != []
    ensures !Inside(m, lines + Block(m, jobs)) && Outside(m, lines + Block(m, jobs)) == lines
  {
    JobsUnmarked(m, jobs);
    Wrapped(m, lines, Lines(jobs));
    assert lines + Block(m, jobs) == lines + [m.begin] + Lines(jobs) + [m.end];
  }

  lemma BlockIsRemoved(m: Marks, lines: seq<string>, jobs: seq<Job>)
    requires Sound(m) && AllJobs(jobs) && NoBlock(m, lines)
    ensures Outside(m, lines + Block(m, jobs) + [""]) == lines + [""]
  {
    if jobs == [] {
      AllOutside(m, lines);
      assert lines + Block(m, jobs) == lines;
    } else {
      MarkedBlock(m, lines, jobs);
    }
    OneMoreLine(m, lines + Block(m, jobs), "");
  }

  lemma {:induction false} BlockLines(m: Marks, jobs: seq<Job>)
    requires Sound(m) && AllJobs(jobs)
    ensures Without(Block(m, jobs), '\n')
  {
    forall i | 0 <= i < |jobs| ensures '\n' !in Lines(jobs)[i] {
      LineIsOneLine(jobs[i]);
    }
  }

  /** The new crontab's lines are the kept ones, the block and the empty end. */
  lemma Layout(m: Marks, cur: string, jobs: seq<Job>)
    requires Sound(m) && AllJobs(jobs)
    ensures Split(Synced(m, cur, jobs), '\n') == KeptLines(m, cur) + Block(m, jobs) + [""]
  {
    KeptHasNoBlock(m, cur);
    BlockLines(m, jobs);
    SplitUnlines(KeptLines(m, cur) + Block(m, jobs));
  }

  /** Stripping what a rewrite wrote gives back the hand-written text it kept. */
  lemma StripUndoesSync(m: Marks, cur: string, jobs: seq<Job>)
    requires Sound(m) && AllJobs(jobs)
    ensures Kept(m, Synced(m, cur, jobs)) == Kept(m, cur)
  {
    Layout(m, cur, jobs);
    KeptHasNoBlock(m, cur);
    BlockIsRemoved(m, KeptLines(m, cur), jobs);
    JoinUnlines(KeptLines(m, cur));
    var kept := Kept(m, cur);
    if kept != "" {
      UnlinesSplit(kept);
      assert (kept + "\n")[..|kept|] == kept;
      assert TrimNewlines(kept + "\n") == TrimNewlines(kept) == kept;
    }
  }

  /** So the last rewrite alone decides the crontab. */
  lemma LastSyncDecides(m: Marks, cur: string, first: seq<Job>, second: seq<Job>)
    requires Sound(m) && AllJobs(first) && AllJobs(second)
    ensures Synced(m, Synced(m, cur, first), second) == Synced(m, cur, second)
  {
    StripUndoesSync(m, cur, first);
  }

  lemma BlockLine(kept: seq<string>, begin: string, lines: seq<string>, end: string, i: nat)
    requires i < |lines|
    ensures var all, at := kept + ([begin] + lines + [end]) + [""], |kept| + 1 + i;
            at < |all| && all[at] == lines[i] && all[..at] == kept + [begin] + lines[..i]
  {
  }

  lemma JobStaysInside(m: Marks, kept: seq<string>, jobs: seq<Job>, i: nat)
    requires Sound(m) && AllJobs(jobs) && NoBlock(m, kept) && i < |jobs|
    ensures var all, at := kept + Block(m, jobs) + [""], |kept| + 1 + i;
            at < |all| && all[at] == Line(jobs[i]) && Inside(m, all[..at])
  {
    JobsUnmarked(m, jobs);
    Opened(m, kept, Lines(jobs)[..i]);
    BlockLine(kept, m.begin, Lines(jobs), m.end, i);
  }

  /** Reading the new crontab line by line gives back every job, in order, after the kept lines, and
      inside the block. */
  lemma JobsReadBack(m: Marks, cur: string, jobs: seq<Job>, i: nat)
    requires Sound(m) && AllJobs(jobs) && i < |jobs|
    ensures var lines, at := Split(Synced(m, cur, jobs), '\n'), |KeptLines(m, cur)| + 1 + i;
            at < |lines| && Cut(lines[at], 5) == Parsed(Fields(jobs[i]), jobs[i].command) && Inside(m, lines[..at])
  {
    Layout(m, cur, jobs);
    KeptHasNoBlock(m, cur);
    JobStaysInside(m, KeptLines(m, cur), jobs, i);
    LineRoundTrip(jobs[i]);
  }

  // ---- The method ----

  datatype Outcome = Done | RootRefused | WriteFailed

  /** One user's crontab as the system holds it. */
  class UserCrontab {
    /** The text; nothing when the user has no crontab. */
    var table: Option<string>

    /** `dev` is the development host, which has no crontab. A read that fails counts as an empty crontab,
        and a write replaces the whole table or fails. */
    method Sync(systemUser: string, dev: bool, jobs: seq<Job>, readable: bool, writable: bool) returns (r: Outcome)
      modifies this
      ensures r == if systemUser == "" || systemUser == "root" then RootRefused
                   else if dev || writable then Done else WriteFailed
      ensures table == if r == Done && !dev
                       then Some(Synced(Panel(), if readable && old(table).Some? then old(table).value else "", jobs))
                       else old(table)
    {
      if systemUser == "" || systemUser == "root" { return RootRefused; }
      if dev { return Done; }
      var cur := if readable && table.Some? then table.value else "";
      var marks := Panel();
      var kept := StripManagedBlock(marks, cur);
      var b := "";
      kept := TrimNewlines(kept);
      if kept != "" {
        b := kept + "\n";
        UnlinesSplit(kept);
      }
      assert b == Unlines(KeptLines(marks, cur));
      if |jobs| > 0 {
        b := WriteBlock(marks, jobs, b);
      } else {
        assert Unlines(Block(marks, jobs)) == "";
      }
      UnlinesJoin(KeptLines(marks, cur), Block(marks, jobs));
      assert b == Unlines(KeptLines(marks, cur)) + Unlines(Block(marks, jobs));
      assert b == Synced(marks, cur, jobs);
      if !writable { return WriteFailed; }
      table := Some(b);
      return Done;
    }
  }

  method WriteBlock(m: Marks, jobs: seq<Job>, text: string) returns (b: string)
    requires jobs != []
    ensures b == text + Unlines(Block(m, jobs))
  {
    b := text + m.begin + "\n";
    ghost var lines := Lines(jobs);
    UnlinesMore([], m.begin);
    for k := 0 to |jobs|
      invariant b == text + Unlines([m.begin] + lines[..k])
    {
      UnlinesMore([m.begin] + lines[..k], lines[k]);
      assert [m.begin] + lines[..k] + [lines[k]] == [m.begin] + lines[..k + 1];
      b := b + Line(jobs[k]) + "\n";
    }
    assert lines[..|jobs|] == lines;
    UnlinesMore([m.begin] + lines, m.end);
    b := b + m.end + "\n";
  }
}
