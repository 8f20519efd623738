/** Where the promises of resumption end: concrete runs that break what module `ResumeProtocol` proves under a
    hypothesis. */
module ResumeLimits {
  import opened Frames
  import opened SentLog
  import opened ResumeState
  import opened ResumeLaws
  import opened ConnectionState
  import opened ResumeProtocol

  lemma RunCons(s: System, a: Action, rest: seq<Action>)
    requires Enabled(s, a) && IsRun(Apply(s, a), rest)
    ensures IsRun(s, [a] + rest) && After(s, [a] + rest) == After(Apply(s, a), rest)
  {
    hide Apply, Enabled;
    assert ([a] + rest)[1..] == rest;
  }

  /** The client sends `f`, the connection breaks before it arrives, and the client resumes. */
  function BrokenResume(f: Frame): seq<Action> {
    [ClientSends(f)] + ([ServerDrops] + ([ClientResumes] + ([ServerAnswers] + ([ClientReads] + []))))
  }

  /** A client that has its frame `f` on record but no longer in its cache. */
  function Uncached(f: Frame, cache: Cache): Endpoint {
    Init(true, 0).(cache := cache, produced := [f], log := [f], evicted := true)
  }

  lemma SendsOversize(full: bool, f: Frame)
    requires IsData(f) && Length(f) == 12
    ensures Enabled(Start(10, 10, full), ClientSends(f))
    ensures Apply(Start(10, 10, full), ClientSends(f)) == Sent(full, f)
  {
    assert TrackSent(Empty(10), f) == Some(Empty(10).(position := 12));
    assert Data([f]) == [f];
  }

  lemma ServerAnswersAtZero(server: Endpoint, request: ResumeRequest)
    requires server == Disconnect(Init(false, 10)) && request.serverPosition == 0 && request.clientPosition <= 0
    ensures TryResumeServer(server, request) == Step(Init(false, 10), [ResumeOkFrame(0)])
  {
    assert Disconnect(server).(connected := true) == Init(false, 10);
  }

  /** The frame is on record and in flight. */
  function Sent(full: bool, f: Frame): System {
    Start(10, 10, full).(client := Uncached(f, Empty(10).(position := 12)), c2s := [f])
  }

  /** The connection is lost and the client has asked to resume. */
  function Asked(full: bool, f: Frame): System {
    var e := Uncached(f, Empty(10).(position := 12));
    Sent(full, f).(client := TryClientResume(e), server := Disconnect(Init(false, 10)), c2s := [], linked := false,
                   resume := Some(CreateResumeFrame(e, full)))
  }

  /** The server has accepted. */
  function Answered(full: bool, f: Frame): System {
    Asked(full, f).(server := Init(false, 10), s2c := [ResumeOkFrame(0)], linked := true, resume := None)
  }

  lemma AsksToResume(full: bool, f: Frame)
    ensures Enabled(Sent(full, f), ServerDrops)
    ensures Enabled(Apply(Sent(full, f), ServerDrops), ClientResumes)
    ensures Apply(Apply(Sent(full, f), ServerDrops), ClientResumes) == Asked(full, f)
  {
  }

  lemma ServerAccepts(full: bool, f: Frame)
    ensures Enabled(Asked(full, f), ServerAnswers)
    ensures Apply(Asked(full, f), ServerAnswers) == Answered(full, f)
  {
    hide TryResumeServer;
    var s := Asked(full, f);
    ServerAnswersAtZero(s.server, s.resume.value);
  }

  lemma CannotReplay(e: Endpoint)
    requires e.resuming && Alive(e) && !Available(e.cache, 0)
    ensures ProcessFrame(e, ResumeOkFrame(0)).end.closed
  {
    assert TrackReceived(e.cache, ResumeOkFrame(0)) == e.cache;
  }

  lemma ClientStrands(full: bool, f: Frame)
    ensures Enabled(Answered(full, f), ClientReads)
    ensures var s := Apply(Answered(full, f), ClientReads);
      s.client.closed && !s.server.closed && s.server.received == []
  {
    CannotReplay(Answered(full, f).client);
    hide ProcessFrame;
  }

  /** An oversize frame breaks the agreement of the two checks: the server accepts the RESUME, and the client then
      closes because it cannot replay, with its frame never delivered. */
  lemma OversizeFrameStrandsClient(full: bool)
    ensures IsRun(Start(10, 10, full), BrokenResume(Sample(12)))
    ensures var s := After(Start(10, 10, full), BrokenResume(Sample(12)));
      s.client.closed && !s.server.closed && s.server.received == []
  {
    hide Apply, Enabled, Sent, Asked, Answered;
    var f := Sample(12);
    SendsOversize(full, f);
    AsksToResume(full, f);
    ServerAccepts(full, f);
    ClientStrands(full, f);
    RunCons(Answered(full, f), ClientReads, []);
    RunCons(Asked(full, f), ServerAnswers, [ClientReads] + []);
    var asking := [ClientResumes] + ([ServerAnswers] + ([ClientReads] + []));
    RunCons(Apply(Sent(full, f), ServerDrops), ClientResumes, [ServerAnswers] + ([ClientReads] + []));
    RunCons(Sent(full, f), ServerDrops, asking);
    RunCons(Start(10, 10, full), ClientSends(f), [ServerDrops] + asking);
  }
}
