/** Where each path is, path by path: a path is never in more places than it was listed, and what a reader works on or
    has counted was accepted. */
module PipelinePaths {
  import opened Capture
  import opened Aggregates
  import opened Pipeline
  import opened PipelineControl
  import opened PipelineFrames

  function Checking(k: Checker, p: Path): nat { if k == CCheck(p) then 1 else 0 }

  function Sending(k: Checker, p: Path): nat { if k == CSend(p) then 1 else 0 }

  function Reading(r: Reader, p: Path): nat { if !r.RRecv? && !r.RDone? && r.path == p then 1 else 0 }

  function Checkings(ks: seq<Checker>, p: Path): nat { Sum(ks, e => Checking(e, p)) }

  function Sendings(ks: seq<Checker>, p: Path): nat { Sum(ks, e => Sending(e, p)) }

  function Readings(rs: seq<Reader>, p: Path): nat { Sum(rs, e => Reading(e, p)) }

  /** The path waits in `files`, is being checked, or was accepted, at most as often as it was fed. */
  predicate BeforeAccepted(c: Config, s: State, p: Path) {
    && FedCount(c, s.main) <= |c.paths|
    && Occ(s.files.buf, p) + Checkings(s.checkers, p)
        + Occ(s.hist.accepted, p) <= Occ(c.paths[..FedCount(c, s.main)], p)
  }

  /** The path is being handed on, waits in `validFiles`, is with a reader, or was counted, at most as often as it was
      accepted. */
  predicate AfterAccepted(s: State, p: Path) {
    Sendings(s.checkers, p) + Occ(s.valid.buf, p) + Readings(s.readers, p)
        + Occ(s.hist.counted, p) <= Occ(s.hist.accepted, p)
  }

  lemma CheckerPaths(c: Config, s: State, w: nat, l: CheckLabel, p: Path)
    requires BeforeAccepted(c, s, p) && AfterAccepted(s, p) && Enabled(c, s, Check(w, l))
    ensures BeforeAccepted(c, Apply(c, s, Check(w, l)), p) && AfterAccepted(Apply(c, s, Check(w, l)), p)
  {
    CheckFrame(c, s, w, l);
    var k := s.checkers[w];
    SumUpdate(s.checkers, w, CheckerNext(c, k, l), e => Checking(e, p));
    SumUpdate(s.checkers, w, CheckerNext(c, k, l), e => Sending(e, p));
    match l
    case Inserted => OccConcat(s.hist.accepted, [k.path], p);
    case Handed => OccConcat(s.valid.buf, [k.path], p);
    case _ =>
  }

  lemma ReaderPaths(c: Config, s: State, w: nat, l: ReadLabel, p: Path)
    requires AfterAccepted(s, p) && Enabled(c, s, Read(w, l))
    ensures AfterAccepted(Apply(c, s, Read(w, l)), p)
  {
    ReadFrame(c, s, w, l);
    SumUpdate(s.readers, w, ReaderNext(c, s.readers[w], l), e => Reading(e, p));
    if l.ProgressOk? { OccConcat(s.hist.counted, [s.readers[w].path], p); }
  }

  lemma FeedPaths(c: Config, s: State, p: Path)
    requires BeforeAccepted(c, s, p) && Enabled(c, s, Main(Feed))
    ensures BeforeAccepted(c, Apply(c, s, Main(Feed)), p)
  {
    MainFrame(c, s, Feed);
    var i := s.main.i;
    OccConcat(s.files.buf, [c.paths[i]], p);
    OccConcat(c.paths[..i], [c.paths[i]], p);
    assert c.paths[..i + 1] == c.paths[..i] + [c.paths[i]];
  }

  lemma PathsStep(c: Config, s: State, a: Action, p: Path)
    requires BeforeAccepted(c, s, p) && AfterAccepted(s, p) && Enabled(c, s, a)
    ensures BeforeAccepted(c, Apply(c, s, a), p) && AfterAccepted(Apply(c, s, a), p)
  {
    match a
    case Check(w, l) => CheckerPaths(c, s, w, l, p);
    case Read(w, l) =>
      ReadFrame(c, s, w, l);
      ReaderPaths(c, s, w, l, p);
    case Save(w, l) => SaveFrame(c, s, w, l);
    case Main(l) =>
      MainFrame(c, s, l);
      if l.Feed? { FeedPaths(c, s, p); }
    case _ => OutsideFrame(c, s, a);
  }

  lemma {:induction false} PathsAlong(c: Config, s: State, run: seq<Action>, p: Path)
    requires BeforeAccepted(c, s, p) && AfterAccepted(s, p) && Legal(c, s, run)
    ensures BeforeAccepted(c, After(c, s, run), p) && AfterAccepted(After(c, s, run), p)
    decreases |run|
  {
    if run == [] {
    } else {
      PathsStep(c, s, run[0], p);
      PathsAlong(c, Apply(c, s, run[0]), run[1..], p);
    }
  }

  /** In every reachable state each path is, path by path, in no more places than it was fed, and beyond the checksum
      workers in no more places than it was accepted. */
  lemma PathsLocated(c: Config, seen: set<string>, s: State, p: Path)
    requires Reachable(c, seen, s)
    ensures BeforeAccepted(c, s, p) && AfterAccepted(s, p)
  {
    var run :| Legal(c, Init(c, seen), run) && After(c, Init(c, seen), run) == s;
    var ks, rs := Init(c, seen).checkers, Init(c, seen).readers;
    SumConstant(ks, 0, e => Checking(e, p));
    SumConstant(ks, 0, e => Sending(e, p));
    SumConstant(rs, 0, e => Reading(e, p));
    PathsAlong(c, Init(c, seen), run, p);
  }
}
