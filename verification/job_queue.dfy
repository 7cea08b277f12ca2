/**
 * The bot's request queue and its worker, run one step at a time: messages
 * put jobs at the tail and bump the `queue_size` counter; the worker takes
 * jobs from the head, runs a fetch for each and answers the chat.
 */
module JobQueue {
  import opened Wrappers
  import opened Strings
  import opened AddressClassifier
  import opened ScrapeLoop
  import opened SunbizFetch
  import opened BotRequests

  /** A queued request: the chat to answer, the keyword and the count. */
  datatype Job = Job(chatId: int, keyword: string, count: int)

  /** The answer to a text message. */
  datatype Reply = NoReply | UsageReply | Queued(position: int, keyword: string, count: int)

  /** What the worker sends to a chat. */
  datatype Notice =
    | Processing(chatId: int, keyword: string, count: int)
    | NothingFound(chatId: int)
    | Document(chatId: int, fileName: string, content: string)

  /** The outside world a fetch runs against. */
  datatype Site = Site(web: Web, poBox: PoBoxMatcher, quote: Encoder)

  /** `request_queue` together with `queue_size`. */
  class RequestQueue {
    var pending: seq<Job>
    var size: int

    /** The counter matches the number of queued jobs. */
    predicate Valid()
      reads this
    {
      size == |pending|
    }

    constructor()
      ensures Valid() && pending == [] && size == 0
    {
      pending := [];
      size := 0;
    }

    /** `request_queue.put(job)` followed by `queue_size += 1`. */
    method Put(job: Job)
      requires Valid()
      modifies this
      ensures Valid()
      ensures pending == old(pending) + [job] && size == old(size) + 1
    {
      pending := pending + [job];
      size := size + 1;
    }

    /** `request_queue.get()` followed by `queue_size = max(0, queue_size - 1)`;
        `None` where `get` would wait for a job. */
    method Get() returns (job: Option<Job>)
      requires Valid()
      modifies this
      ensures Valid() && size >= 0
      ensures old(pending) == [] ==> job == None && pending == [] && size == old(size)
      ensures old(pending) != [] ==>
        && job == Some(old(pending)[0])
        && pending == old(pending)[1..]
        && size == Max(0, old(size) - 1)
    {
      if pending == [] {
        return None;
      }
      job := Some(pending[0]);
      pending := pending[1..];
      size := Max(0, size - 1);
    }

    /** `handle_message`: a job is queued only for a well-formed request,
        and the reply gives its place in the queue. */
    method HandleMessage(chatId: int, text: Option<string>, maxAddresses: int) returns (reply: Reply)
      requires Valid()
      modifies this
      ensures Valid()
      ensures var r := ParseRequest(text, maxAddresses);
        && (r.Enqueue? ==>
              && pending == old(pending) + [Job(chatId, r.keyword, r.count)]
              && reply == Queued(|pending|, r.keyword, r.count))
        && (!r.Enqueue? ==>
              && pending == old(pending) && size == old(size)
              && reply == (if r.Usage? then UsageReply else NoReply))
    {
      match ParseRequest(text, maxAddresses)
      case Ignored =>
        reply := NoReply;
      case Usage =>
        reply := UsageReply;
      case Enqueue(keyword, count) =>
        Put(Job(chatId, keyword, count));
        reply := Queued(size, keyword, count);
    }
  }

  // ---------------------------------------------------------------------
  // One job.

  /** What `run_fetch_sync` leaves: the address list to send, if any, and
      the files. */
  datatype Fetched = Fetched(txt: Option<FilePath>, files: Files)

  /** The fetch a job runs: its keyword, its count as the cap, the JSON
      output and the keyword's seen file in the data directory. */
  function JobQuery(keyword: string, count: int, dataDir: string): Query {
    Query(None, Some(keyword), Some(count), OutputPathFor(dataDir), Some(SeenPathFor(dataDir, keyword)))
  }

  /** `run_fetch_sync`: no file when nothing was found or when the
      address list is missing. */
  ghost function FetchSync(term: string, count: int, dataDir: string, site: Site, files: Files): Fetched {
    var out := Fetch(JobQuery(term, count, dataDir), site.web, site.poBox, site.quote, files);
    if out.results == [] then Fetched(None, out.files)
    else
      var txt := FilePath(dataDir, TermClean(term) + NatToString(|out.results|) + ".txt");
      Fetched(if txt in out.files then Some(txt) else None, out.files)
  }

  method RunFetchSync(term: string, count: int, dataDir: string, site: Site, files: Files) returns (f: Fetched)
    ensures f == FetchSync(term, count, dataDir, site, files)
  {
    var out := FetchSunbizData(JobQuery(term, count, dataDir), site.web, site.poBox, site.quote, files);
    if out.results == [] {
      return Fetched(None, out.files);
    }
    var txt := FilePath(dataDir, TermClean(term) + NatToString(|out.results|) + ".txt");
    f := Fetched(if txt in out.files then Some(txt) else None, out.files);
  }

  /** For a non-empty keyword the address list is the one the fetch wrote:
      a file comes back exactly when the fetch found something, and it
      holds one line per record found. */
  lemma FetchSyncFinds(term: string, count: int, dataDir: string, site: Site, files: Files)
    requires term != ""
    ensures var out := Fetch(JobQuery(term, count, dataDir), site.web, site.poBox, site.quote, files);
      var f := FetchSync(term, count, dataDir, site, files);
      && (f.txt.Some? <==> out.results != [])
      && f.files == out.files
      && (f.txt.Some? ==>
            && f.txt.value == FilePath(dataDir, TxtName(term, |out.results|))
            && f.files[f.txt.value] == TxtContent(out.results)
            && Count(f.files[f.txt.value], '\n') == |out.results|)
  {
    var q := JobQuery(term, count, dataDir);
    var out := Fetch(q, site.web, site.poBox, site.quote, files);
    FetchTxt(q, site.web, site.poBox, site.quote, files);
    TxtPathApart(dataDir, term, |out.results|, term);
    assert TxtPath(q, |out.results|) == FilePath(dataDir, TxtName(term, |out.results|));
  }

  /** What the worker does for one job: announce it, run the fetch with the
      count capped again, then send the address list and delete it, or say
      that nothing was found. */
  datatype Served = Served(notices: seq<Notice>, files: Files)

  /** The worker's messages once the fetch for `count` addresses has left
      `f`: the announcement, then the address list (deleted once sent) or
      the nothing-found message, both to the job's chat. */
  function Answer(job: Job, count: int, f: Fetched): (s: Served)
    ensures |s.notices| == 2 && s.notices[0] == Processing(job.chatId, job.keyword, count)
    ensures s.notices[1].chatId == job.chatId
    ensures f.txt.Some? && f.txt.value in f.files ==>
      s.notices[1] == Document(job.chatId, f.txt.value.name, f.files[f.txt.value]) && s.files == f.files - {f.txt.value}
    ensures f.txt.None? || f.txt.value !in f.files ==> s.notices[1] == NothingFound(job.chatId) && s.files == f.files
  {
    var start := Processing(job.chatId, job.keyword, count);
    if f.txt.None? || f.txt.value !in f.files then Served([start, NothingFound(job.chatId)], f.files)
    else Served([start, Document(job.chatId, f.txt.value.name, f.files[f.txt.value])], f.files - {f.txt.value})
  }

  ghost function ServeOne(job: Job, maxAddresses: int, dataDir: string, site: Site, files: Files): Served {
    var count := Min(job.count, maxAddresses);
    Answer(job, count, FetchSync(job.keyword, count, dataDir, site, files))
  }

  method ServeJob(job: Job, maxAddresses: int, dataDir: string, site: Site, files: Files) returns (s: Served)
    ensures s == ServeOne(job, maxAddresses, dataDir, site, files)
  {
    var count := Min(job.count, maxAddresses);
    var start := Processing(job.chatId, job.keyword, count);
    var f := RunFetchSync(job.keyword, count, dataDir, site, files);
    if f.txt.None? || f.txt.value !in f.files {
      return Served([start, NothingFound(job.chatId)], f.files);
    }
    var txt := f.txt.value;
    var content := f.files[txt];
    s := Served([start, Document(job.chatId, txt.name, content)], f.files - {txt});
  }

  /** The worker's handling of one job, as a function value. */
  ghost function Step(maxAddresses: int, dataDir: string, site: Site): (Job, Files) -> Served {
    (job: Job, files: Files) => ServeOne(job, maxAddresses, dataDir, site, files)
  }

  /** The worker on a queue of jobs, in order, each seeing the files the
      previous one left; `step` handles one job. */
  ghost function Serve(jobs: seq<Job>, step: (Job, Files) -> Served, files: Files): Served
    decreases |jobs|
  {
    if jobs == [] then Served([], files)
    else
      var first := step(jobs[0], files);
      var rest := Serve(jobs[1..], step, first.files);
      Served(first.notices + rest.notices, rest.files)
  }

  /** Serving a queue is serving its head and then the rest. */
  lemma ServeCons(notices: seq<Notice>, jobs: seq<Job>, step: (Job, Files) -> Served, files: Files, one: Served)
    requires jobs != [] && one == step(jobs[0], files)
    ensures var r := Serve(jobs, step, files);
      var r' := Serve(jobs[1..], step, one.files);
      Served(notices + r.notices, r.files) == Served((notices + one.notices) + r'.notices, r'.files)
  {
  }

  /** Applying `Step` is serving one job. */
  lemma StepApply(maxAddresses: int, dataDir: string, site: Site, job: Job, files: Files)
    ensures Step(maxAddresses, dataDir, site)(job, files) == ServeOne(job, maxAddresses, dataDir, site, files)
  {
  }

  /** `queue_worker` until the queue is empty. */
  method Worker(q: RequestQueue, maxAddresses: int, dataDir: string, site: Site, files: Files) returns (s: Served)
    requires q.Valid()
    modifies q
    ensures q.Valid() && q.pending == [] && q.size == 0
    ensures s == Serve(old(q.pending), Step(maxAddresses, dataDir, site), files)
  {
    ghost var step := Step(maxAddresses, dataDir, site);
    ghost var goal := Serve(q.pending, step, files);
    var notices: seq<Notice> := [];
    var disk := files;
    while true
      invariant q.Valid()
      invariant var r := Serve(q.pending, step, disk);
        Served(notices + r.notices, r.files) == goal
      decreases |q.pending|
    {
      ghost var before := q.pending;
      var job := q.Get();
      if job.None? {
        break;
      }
      var one := ServeJob(job.value, maxAddresses, dataDir, site, disk);
      StepApply(maxAddresses, dataDir, site, job.value, disk);
      ServeCons(notices, before, step, disk, one);
      notices := notices + one.notices;
      disk := one.files;
    }
    s := Served(notices, disk);
  }

  // ---------------------------------------------------------------------
  // What the worker guarantees.

  /** The worker's answers `n` to `jobs`: two messages per job, in queue
      order; first the announcement with the capped count, then the address
      list or the nothing-found message, both to the job's chat. */
  predicate Answers(jobs: seq<Job>, maxAddresses: int, n: seq<Notice>) {
    && |n| == 2 * |jobs|
    && (forall i :: 0 <= i < |jobs| ==>
          && n[2 * i] == Processing(jobs[i].chatId, jobs[i].keyword, Min(jobs[i].count, maxAddresses))
          && (n[2 * i + 1].NothingFound? || n[2 * i + 1].Document?)
          && n[2 * i + 1].chatId == jobs[i].chatId)
  }

  lemma ShapeCons(jobs: seq<Job>, maxAddresses: int, head: seq<Notice>, rest: seq<Notice>)
    requires jobs != []
    requires Answers(jobs[..1], maxAddresses, head)
    requires Answers(jobs[1..], maxAddresses, rest)
    ensures Answers(jobs, maxAddresses, head + rest)
  {
    var n := head + rest;
    forall i | 1 <= i < |jobs|
      ensures n[2 * i] == rest[2 * (i - 1)] && n[2 * i + 1] == rest[2 * (i - 1) + 1]
    {
    }
  }

  /** One job is answered by the announcement with the capped count, then
      one reply, both to the job's chat. */
  lemma ServeOneShape(job: Job, maxAddresses: int, dataDir: string, site: Site, files: Files)
    ensures Answers([job], maxAddresses, ServeOne(job, maxAddresses, dataDir, site, files).notices)
  {
    var count := Min(job.count, maxAddresses);
    var s := Answer(job, count, FetchSync(job.keyword, count, dataDir, site, files));
    assert ServeOne(job, maxAddresses, dataDir, site, files) == s;
    assert s.notices[1].NothingFound? || s.notices[1].Document?;
  }

  /** A step that answers each job as `Answers` says answers a whole queue
      that way. */
  lemma {:induction false} ServeAnswers(jobs: seq<Job>, maxAddresses: int, step: (Job, Files) -> Served, files: Files)
    requires forall job, f :: Answers([job], maxAddresses, step(job, f).notices)
    ensures Answers(jobs, maxAddresses, Serve(jobs, step, files).notices)
    decreases |jobs|
  {
    if jobs != [] {
      var first := step(jobs[0], files);
      ServeAnswers(jobs[1..], maxAddresses, step, first.files);
      assert jobs[..1] == [jobs[0]];
      ShapeCons(jobs, maxAddresses, first.notices, Serve(jobs[1..], step, first.files).notices);
    }
  }

  /** Every job in the queue is answered, in order, as `Answers` says. */
  lemma ServeShape(jobs: seq<Job>, maxAddresses: int, dataDir: string, site: Site, files: Files)
    ensures Answers(jobs, maxAddresses, Serve(jobs, Step(maxAddresses, dataDir, site), files).notices)
  {
    var step := Step(maxAddresses, dataDir, site);
    forall job, f
      ensures Answers([job], maxAddresses, step(job, f).notices)
    {
      ServeOneShape(job, maxAddresses, dataDir, site, f);
    }
    ServeAnswers(jobs, maxAddresses, step, files);
  }

  /** For a job whose keyword is one token, the answer is the address list
      of the fetch named `<keyword><count>.txt`, one line per record, when
      the fetch found something, and the nothing-found message otherwise;
      the list is deleted once sent. */
  lemma ServeOneDelivers(job: Job, maxAddresses: int, dataDir: string, site: Site, files: Files)
    requires IsWord(job.keyword)
    ensures var count := Min(job.count, maxAddresses);
      var out := Fetch(JobQuery(job.keyword, count, dataDir), site.web, site.poBox, site.quote, files);
      var s := ServeOne(job, maxAddresses, dataDir, site, files);
      var txt := FilePath(dataDir, TxtName(job.keyword, |out.results|));
      && (out.results == [] ==> s == Served([Processing(job.chatId, job.keyword, count), NothingFound(job.chatId)], out.files))
      && (out.results != [] ==>
            && s == Served([Processing(job.chatId, job.keyword, count),
                            Document(job.chatId, txt.name, TxtContent(out.results))], out.files - {txt})
            && Count(TxtContent(out.results), '\n') == |out.results|)
  {
    FetchSyncFinds(job.keyword, Min(job.count, maxAddresses), dataDir, site, files);
  }
}
