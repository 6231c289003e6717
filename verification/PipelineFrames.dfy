/** What each kind of goroutine can change in one step; everything else keeps its value. */
module PipelineFrames {
  import opened Pipeline

  lemma CheckFrame(c: Config, s: State, w: nat, l: CheckLabel)
    requires Enabled(c, s, Check(w, l))
    ensures var t := Apply(c, s, Check(w, l));
      && t == s.(files := s.files.(buf := t.files.buf), valid := s.valid.(buf := t.valid.buf), seen := t.seen,
                 checkers := s.checkers[w := CheckerNext(c, s.checkers[w], l)],
                 hist := s.hist.(accepted := t.hist.accepted, skipped := t.hist.skipped))
  {
  }

  lemma ReadFrame(c: Config, s: State, w: nat, l: ReadLabel)
    requires Enabled(c, s, Read(w, l))
    ensures var t := Apply(c, s, Read(w, l));
      && t == s.(valid := s.valid.(buf := t.valid.buf), stream := s.stream.(buf := t.stream.buf),
                 readers := s.readers[w := ReaderNext(c, s.readers[w], l)], totalRead := t.totalRead,
                 job := s.job.(filesRead := t.job.filesRead), hist := t.hist)
      && t.hist == s.hist.(counted := t.hist.counted, decoded := t.hist.decoded, sent := t.hist.sent,
                           unsent := t.hist.unsent, skipped := t.hist.skipped)
  {
  }

  lemma SaveFrame(c: Config, s: State, w: nat, l: SaveLabel)
    requires Enabled(c, s, Save(w, l))
    ensures var t := Apply(c, s, Save(w, l));
      && t == s.(stream := s.stream.(buf := t.stream.buf), counts := s.counts.(buf := t.counts.buf), cancelled :=
          t.cancelled,
                 savers := s.savers[w := SaverNext(s.savers[w], l)], totalSaved := t.totalSaved,
                 job := t.job, hist := s.hist.(unsaved := t.hist.unsaved))
      && t.job.filesRead == s.job.filesRead
  {
  }

  lemma MainFrame(c: Config, s: State, l: MainLabel)
    requires Enabled(c, s, Main(l))
    ensures var t := Apply(c, s, Main(l));
      && t == s.(main := t.main, files := t.files, counts := s.counts.(buf := t.counts.buf), cancelled :=
          t.cancelled, job := t.job)
      && t.job == s.job.(statuses := t.job.statuses) && t.files.cap == s.files.cap
  {
  }

  predicate Outside(a: Action) { !a.Main? && !a.Check? && !a.Read? && !a.Save? }

  lemma OutsideFrame(c: Config, s: State, a: Action)
    requires Enabled(c, s, a) && Outside(a)
    ensures var t := Apply(c, s, a);
      && t == s.(valid := s.valid.(closed := t.valid.closed), stream := s.stream.(closed := t.stream.closed),
                 validCloser := t.validCloser, streamCloser := t.streamCloser, cancelled := t.cancelled, seen := t.seen)
      && (!a.OtherInserts? ==> t.seen == s.seen)
      && (!a.CancelJob? ==> t.cancelled == s.cancelled)
  {
  }
}
