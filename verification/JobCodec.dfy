/** The durable job codec (src/app/jobs.py) over JSON values. */
module JobCodec {
  import opened Basics
  import opened Events

  /** Object keys; each constructor is spelled as the key it stands for, the last stands for all keys that are none
      of these. `job` names the message field that holds the payload. */
  datatype Key =
    | schema_version | correlation_id | event | kind | meta | event_id | event_type | timestamp | source
    | repo_full_name | pr_number | title | body | author | base_branch | head_branch | diff_url
    | files_changed | head_sha | path | status | additions | deletions | previous_filename
    | comment_id | is_review_comment | line | reviewer | state | commit_sha | workflow_name | conclusion
    | run_url | failed_jobs | logs_url | run_id | platform | channel_id | channel_name | message | thread_id
    | referenced_pr | job | other(number: nat)

  type Fields = map<Key, Json>

  datatype Json =
    | Null
    | Bool(b: bool)
    | Int(i: int)
    | Float(x: real)
    | Str(s: string)
    | Arr(items: seq<Json>)
    | Obj(fields: map<Key, Json>)

  /** What a stream message's `job` field holds: nothing, text that is no JSON, or JSON text. */
  datatype Payload = Missing | NotJson | Parsed(json: Json)

  datatype DecodeError =
    | FieldMissing
    | InvalidJson
    | WrongType(field: Key)
    | BadVersion
    | UnknownWord(field: Key, word: string)
    | BadTimestamp

  type Decoded<T> = Result<T, DecodeError>

  /** The standard library's ISO timestamp text: any format that parses back what it prints. */
  datatype IsoFormat = IsoFormat(show: Timestamp -> string, parse: string -> Option<Timestamp>) {
    ghost predicate Faithful() {
      forall t: Timestamp :: parse(show(t)) == Some(t)
    }
  }

  datatype QueuedJob =
    | EventJob(event: Event, correlationId: string, deliveryId: string)
    | MalformedEventJob(deliveryId: string, error: DecodeError)

  function TypeWord(t: EventType): string {
    match t
    case PROpenedType => "pr_opened"
    case PRUpdatedType => "pr_updated"
    case PRCommentedType => "pr_commented"
    case PRReviewedType => "pr_reviewed"
    case CICompletedType => "ci_completed"
    case ChatMentionType => "chat_mention"
  }

  function TypeFromWord(word: string, field: Key): (r: Decoded<EventType>)
    ensures r.Success? ==> TypeWord(r.value) == word
  {
    if word == "pr_opened" then Success(PROpenedType)
    else if word == "pr_updated" then Success(PRUpdatedType)
    else if word == "pr_commented" then Success(PRCommentedType)
    else if word == "pr_reviewed" then Success(PRReviewedType)
    else if word == "ci_completed" then Success(CICompletedType)
    else if word == "chat_mention" then Success(ChatMentionType)
    else Failure(UnknownWord(field, word))
  }

  function SourceWord(s: EventSource): string {
    match s
    case GitHub => "github"
    case Slack => "slack"
    case Teams => "teams"
    case Replay => "replay"
  }

  function SourceFromWord(word: string): (r: Decoded<EventSource>)
    ensures r.Success? ==> SourceWord(r.value) == word
  {
    if word == "github" then Success(GitHub)
    else if word == "slack" then Success(Slack)
    else if word == "teams" then Success(Teams)
    else if word == "replay" then Success(Replay)
    else Failure(UnknownWord(Key.source, word))
  }

  // Encoding

  function OptionalInt(v: Option<int>): Json {
    match v case None => Null case Some(i) => Int(i)
  }

  function EncodeMeta(iso: IsoFormat, m: EventMeta): Json {
    Obj(map[
      Key.event_id := Str(m.eventId), Key.event_type := Str(TypeWord(m.eventType)),
      Key.correlation_id := Str(m.correlationId), Key.timestamp := Str(iso.show(m.timestamp)),
      Key.source := Str(SourceWord(m.source))])
  }

  function EncodeFile(f: FileChange): Json {
    Obj(map[
      Key.path := Str(f.path), Key.status := Str(f.status), Key.additions := Int(f.additions),
      Key.deletions := Int(f.deletions), Key.previous_filename := Str(f.previousFilename)])
  }

  function EncodePR(e: PREvent): Fields {
    map[
      Key.repo_full_name := Str(e.repoFullName), Key.pr_number := Int(e.prNumber), Key.title := Str(e.title),
      Key.body := Str(e.body), Key.author := Str(e.author), Key.base_branch := Str(e.baseBranch),
      Key.head_branch := Str(e.headBranch), Key.diff_url := Str(e.diffUrl),
      Key.files_changed := Arr(Map(EncodeFile, e.filesChanged)), Key.head_sha := Str(e.headSha)]
  }

  /** The fields of `asdict(event)` other than `meta`. */
  function EncodeFields(e: Event): Fields {
    match e
    case Opened(pr) => EncodePR(pr)
    case Updated(pr) => EncodePR(pr)
    case Commented(c) => map[
      Key.repo_full_name := Str(c.repoFullName), Key.pr_number := Int(c.prNumber), Key.comment_id := Int(c.commentId),
      Key.author := Str(c.author), Key.body := Str(c.body), Key.is_review_comment := Bool(c.isReviewComment),
      Key.path := Str(c.path), Key.line := OptionalInt(c.line)]
    case Reviewed(r) => map[
      Key.repo_full_name := Str(r.repoFullName), Key.pr_number := Int(r.prNumber), Key.reviewer := Str(r.reviewer),
      Key.state := Str(r.state), Key.body := Str(r.body)]
    case CI(c) => map[
      Key.repo_full_name := Str(c.repoFullName), Key.pr_number := OptionalInt(c.prNumber),
      Key.commit_sha := Str(c.commitSha), Key.workflow_name := Str(c.workflowName), Key.conclusion := Str(c.conclusion),
      Key.run_url := Str(c.runUrl), Key.failed_jobs := Arr(Map((s: string) => Str(s), c.failedJobs)),
      Key.logs_url := Str(c.logsUrl), Key.run_id := OptionalInt(c.runId)]
    case Chat(m) => map[
      Key.platform := Str(m.platform), Key.channel_id := Str(m.channelId), Key.channel_name := Str(m.channelName),
      Key.author := Str(m.author), Key.message := Str(m.message), Key.thread_id := Str(m.threadId),
      Key.referenced_pr := OptionalInt(m.referencedPr)]
  }

  /** `_event_to_payload`: the kind is the metadata's event type, not the event's class. */
  function EncodeEvent(iso: IsoFormat, e: Event): Fields {
    EncodeFields(e)[Key.meta := EncodeMeta(iso, e.Meta())][Key.kind := Str(TypeWord(e.Meta().eventType))]
  }

  /** `_serialize_job`. */
  function EncodeJob(iso: IsoFormat, e: Event, correlationId: string): Json {
    Obj(map[Key.schema_version := Int(1), Key.correlation_id := Str(correlationId), Key.event := Obj(EncodeEvent(iso, e))])
  }

  // Decoding

  function Get(fields: Fields, key: Key, absent: Json): Json {
    if key in fields then fields[key] else absent
  }

  function RequireObj(v: Json, field: Key): Decoded<Fields> {
    if v.Obj? then Success(v.fields) else Failure(WrongType(field))
  }

  function RequireStr(fields: Fields, key: Key, absent: Json): Decoded<string> {
    var v := Get(fields, key, absent);
    if v.Str? then Success(v.s) else Failure(WrongType(key))
  }

  function RequireInt(fields: Fields, key: Key, absent: Json): Decoded<int> {
    var v := Get(fields, key, absent);
    if v.Int? then Success(v.i) else Failure(WrongType(key))
  }

  function RequireBool(fields: Fields, key: Key, absent: Json): Decoded<bool> {
    var v := Get(fields, key, absent);
    if v.Bool? then Success(v.b) else Failure(WrongType(key))
  }

  function RequireOptionalInt(fields: Fields, key: Key): Decoded<Option<int>> {
    var v := Get(fields, key, Null);
    if v.Null? then Success(None) else if v.Int? then Success(Some(v.i)) else Failure(WrongType(key))
  }

  function DecodeStrings(items: seq<Json>, field: Key): Decoded<seq<string>> {
    if items == [] then Success([])
    else if !items[0].Str? then Failure(WrongType(field))
    else
      var rest :- DecodeStrings(items[1..], field);
      Success([items[0].s] + rest)
  }

  function DecodeFile(v: Json): Decoded<FileChange> {
    var f :- RequireObj(v, Key.files_changed);
    var path :- RequireStr(f, Key.path, Null);
    var status :- RequireStr(f, Key.status, Null);
    var additions :- RequireInt(f, Key.additions, Int(0));
    var deletions :- RequireInt(f, Key.deletions, Int(0));
    var previous :- RequireStr(f, Key.previous_filename, Str(""));
    Success(FileChange(path, status, additions, deletions, previous))
  }

  function DecodeFiles(items: seq<Json>): Decoded<seq<FileChange>> {
    if items == [] then Success([]) else
      var first :- DecodeFile(items[0]);
      var rest :- DecodeFiles(items[1..]);
      Success([first] + rest)
  }

  function DecodeMeta(iso: IsoFormat, f: Fields): Decoded<EventMeta> {
    var eventId :- RequireStr(f, Key.event_id, Null);
    var word :- RequireStr(f, Key.event_type, Null);
    var eventType :- TypeFromWord(word, Key.event_type);
    var correlationId :- RequireStr(f, Key.correlation_id, Null);
    var stamp :- RequireStr(f, Key.timestamp, Null);
    match iso.parse(stamp)
    case None => Failure(BadTimestamp)
    case Some(t) =>
      var sourceWord :- RequireStr(f, Key.source, Null);
      var source :- SourceFromWord(sourceWord);
      Success(EventMeta(eventId, eventType, correlationId, t, source))
  }

  function DecodePR(m: EventMeta, f: Fields): Decoded<PREvent> {
    var files := Get(f, Key.files_changed, Arr([]));
    if !files.Arr? then Failure(WrongType(Key.files_changed)) else
      var repo :- RequireStr(f, Key.repo_full_name, Null);
      var number :- RequireInt(f, Key.pr_number, Null);
      var title :- RequireStr(f, Key.title, Null);
      var body :- RequireStr(f, Key.body, Null);
      var author :- RequireStr(f, Key.author, Null);
      var base :- RequireStr(f, Key.base_branch, Null);
      var head :- RequireStr(f, Key.head_branch, Null);
      var diffUrl :- RequireStr(f, Key.diff_url, Null);
      var changed :- DecodeFiles(files.items);
      var sha :- RequireStr(f, Key.head_sha, Str(""));
      Success(PREvent(m, repo, number, title, body, author, base, head, diffUrl, changed, sha))
  }

  function DecodeCommented(m: EventMeta, f: Fields): Decoded<PRCommented> {
    var repo :- RequireStr(f, Key.repo_full_name, Null);
    var number :- RequireInt(f, Key.pr_number, Null);
    var id :- RequireInt(f, Key.comment_id, Null);
    var author :- RequireStr(f, Key.author, Null);
    var body :- RequireStr(f, Key.body, Null);
    var isReview :- RequireBool(f, Key.is_review_comment, Bool(false));
    var path :- RequireStr(f, Key.path, Str(""));
    var line :- RequireOptionalInt(f, Key.line);
    Success(PRCommented(m, repo, number, id, author, body, isReview, path, line))
  }

  function DecodeReviewed(m: EventMeta, f: Fields): Decoded<PRReviewed> {
    var repo :- RequireStr(f, Key.repo_full_name, Null);
    var number :- RequireInt(f, Key.pr_number, Null);
    var reviewer :- RequireStr(f, Key.reviewer, Null);
    var state :- RequireStr(f, Key.state, Null);
    var body :- RequireStr(f, Key.body, Str(""));
    Success(PRReviewed(m, repo, number, reviewer, state, body))
  }

  function DecodeCI(m: EventMeta, f: Fields): Decoded<CICompleted> {
    var repo :- RequireStr(f, Key.repo_full_name, Null);
    var number :- RequireOptionalInt(f, Key.pr_number);
    var sha :- RequireStr(f, Key.commit_sha, Null);
    var workflow :- RequireStr(f, Key.workflow_name, Null);
    var conclusion :- RequireStr(f, Key.conclusion, Null);
    var runUrl :- RequireStr(f, Key.run_url, Null);
    var jobs := Get(f, Key.failed_jobs, Arr([]));
    if !jobs.Arr? then Failure(WrongType(Key.failed_jobs)) else
      var failed :- DecodeStrings(jobs.items, Key.failed_jobs);
      var logsUrl :- RequireStr(f, Key.logs_url, Str(""));
      var runId :- RequireOptionalInt(f, Key.run_id);
      Success(CICompleted(m, repo, number, sha, workflow, conclusion, runUrl, failed, logsUrl, runId))
  }

  function DecodeChat(m: EventMeta, f: Fields): Decoded<ChatMention> {
    var platform :- RequireStr(f, Key.platform, Null);
    var channelId :- RequireStr(f, Key.channel_id, Null);
    var channelName :- RequireStr(f, Key.channel_name, Null);
    var author :- RequireStr(f, Key.author, Null);
    var message :- RequireStr(f, Key.message, Null);
    var threadId :- RequireStr(f, Key.thread_id, Str(""));
    var pr :- RequireOptionalInt(f, Key.referenced_pr);
    Success(ChatMention(m, platform, channelId, channelName, author, message, threadId, pr))
  }

  /** The constructor the kind selects. */
  function DecodeKind(k: EventType, m: EventMeta, f: Fields): (r: Decoded<Event>)
    ensures r.Success? ==> r.value.ClassType() == k && r.value.Meta() == m
  {
    match k
    case PROpenedType => var e :- DecodePR(m, f); Success(Opened(e))
    case PRUpdatedType => var e :- DecodePR(m, f); Success(Updated(e))
    case PRCommentedType => var e :- DecodeCommented(m, f); Success(Commented(e))
    case PRReviewedType => var e :- DecodeReviewed(m, f); Success(Reviewed(e))
    case CICompletedType => var e :- DecodeCI(m, f); Success(CI(e))
    case ChatMentionType => var e :- DecodeChat(m, f); Success(Chat(e))
  }

  /** `_event_from_payload`: the kind selects the class; the metadata's event type is not compared with it. */
  function DecodeEvent(iso: IsoFormat, f: Fields): Decoded<Event> {
    var word :- RequireStr(f, Key.kind, Null);
    var k :- TypeFromWord(word, Key.kind);
    var metaFields :- RequireObj(Get(f, Key.meta, Null), Key.meta);
    var m :- DecodeMeta(iso, metaFields);
    DecodeKind(k, m, f)
  }

  /** `schema_version != 1` as Python compares: `True` and `1.0` equal 1 as well. */
  predicate IsVersionOne(v: Json) {
    v == Int(1) || v == Bool(true) || v == Float(1.0)
  }

  /** `_deserialize_job`. */
  function DecodeJob(iso: IsoFormat, json: Json): Decoded<(Event, string)> {
    var data :- RequireObj(json, Key.job);
    if !IsVersionOne(Get(data, Key.schema_version, Null)) then Failure(BadVersion) else
      var f :- RequireObj(Get(data, Key.event, Null), Key.event);
      var e :- DecodeEvent(iso, f);
      var correlationId :- RequireStr(data, Key.correlation_id, Null);
      Success((e, correlationId))
  }

  /** `_job_from_message`: whatever fails to decode becomes a malformed job that keeps its delivery id. */
  function JobFromMessage(iso: IsoFormat, deliveryId: string, payload: Payload): (r: QueuedJob)
    ensures r.deliveryId == deliveryId
    ensures r.EventJob? <==> payload.Parsed? && DecodeJob(iso, payload.json).Success?
  {
    match payload
    case Missing => MalformedEventJob(deliveryId, FieldMissing)
    case NotJson => MalformedEventJob(deliveryId, InvalidJson)
    case Parsed(json) =>
      match DecodeJob(iso, json)
      case Success((e, correlationId)) => EventJob(e, correlationId, deliveryId)
      case Failure(error) => MalformedEventJob(deliveryId, error)
  }

  // Round trip

  lemma {:induction false} FilesRoundTrip(files: seq<FileChange>)
    ensures DecodeFiles(Map(EncodeFile, files)) == Success(files)
  {
    if files != [] {
      FilesRoundTrip(files[1..]);
      assert Map(EncodeFile, files)[1..] == Map(EncodeFile, files[1..]);
      assert DecodeFile(EncodeFile(files[0])) == Success(files[0]);
      assert [files[0]] + files[1..] == files;
    }
  }

  lemma {:induction false} StringsRoundTrip(strings: seq<string>, field: Key)
    ensures DecodeStrings(Map((s: string) => Str(s), strings), field) == Success(strings)
  {
    if strings != [] {
      StringsRoundTrip(strings[1..], field);
      assert Map((s: string) => Str(s), strings)[1..] == Map((s: string) => Str(s), strings[1..]);
      assert [strings[0]] + strings[1..] == strings;
    }
  }

  lemma WordsRoundTrip(t: EventType, field: Key, s: EventSource)
    ensures TypeFromWord(TypeWord(t), field) == Success(t)
    ensures SourceFromWord(SourceWord(s)) == Success(s)
  {
  }

  lemma MetaRoundTrips(iso: IsoFormat, m: EventMeta)
    requires iso.Faithful()
    ensures DecodeMeta(iso, EncodeMeta(iso, m).fields) == Success(m)
  {
    WordsRoundTrip(m.eventType, Key.event_type, m.source);
  }

  /** The encoded fields of a PR event, one by one, under the two keys every event adds. */
  ghost predicate HoldsPR(f: Fields, e: PREvent) {
    && RequireStr(f, Key.repo_full_name, Null) == Success(e.repoFullName)
    && RequireInt(f, Key.pr_number, Null) == Success(e.prNumber)
    && RequireStr(f, Key.title, Null) == Success(e.title)
    && RequireStr(f, Key.body, Null) == Success(e.body)
    && RequireStr(f, Key.author, Null) == Success(e.author)
    && RequireStr(f, Key.base_branch, Null) == Success(e.baseBranch)
    && RequireStr(f, Key.head_branch, Null) == Success(e.headBranch)
    && RequireStr(f, Key.diff_url, Null) == Success(e.diffUrl)
    && Get(f, Key.files_changed, Arr([])) == Arr(Map(EncodeFile, e.filesChanged))
    && RequireStr(f, Key.head_sha, Str("")) == Success(e.headSha)
  }

  lemma EncodedPRHolds(e: PREvent, extra: Json, kindWord: Json)
    ensures HoldsPR(EncodePR(e)[Key.meta := extra][Key.kind := kindWord], e)
  {
  }

  lemma HoldsPRDecodes(f: Fields, e: PREvent)
    requires HoldsPR(f, e)
    ensures DecodePR(e.meta, f) == Success(e)
  {
    FilesRoundTrip(e.filesChanged);
  }

  lemma PRRoundTrips(e: PREvent, extra: Json, kindWord: Json)
    ensures DecodePR(e.meta, EncodePR(e)[Key.meta := extra][Key.kind := kindWord]) == Success(e)
  {
    EncodedPRHolds(e, extra, kindWord);
    HoldsPRDecodes(EncodePR(e)[Key.meta := extra][Key.kind := kindWord], e);
  }

  ghost predicate HoldsCI(f: Fields, c: CICompleted) {
    && RequireStr(f, Key.repo_full_name, Null) == Success(c.repoFullName)
    && RequireOptionalInt(f, Key.pr_number) == Success(c.prNumber)
    && RequireStr(f, Key.commit_sha, Null) == Success(c.commitSha)
    && RequireStr(f, Key.workflow_name, Null) == Success(c.workflowName)
    && RequireStr(f, Key.conclusion, Null) == Success(c.conclusion)
    && RequireStr(f, Key.run_url, Null) == Success(c.runUrl)
    && Get(f, Key.failed_jobs, Arr([])) == Arr(Map((s: string) => Str(s), c.failedJobs))
    && RequireStr(f, Key.logs_url, Str("")) == Success(c.logsUrl)
    && RequireOptionalInt(f, Key.run_id) == Success(c.runId)
  }

  lemma EncodedCIHolds(c: CICompleted, extra: Json, kindWord: Json)
    ensures HoldsCI(EncodeFields(CI(c))[Key.meta := extra][Key.kind := kindWord], c)
  {
  }

  lemma HoldsCIDecodes(f: Fields, c: CICompleted)
    requires HoldsCI(f, c)
    ensures DecodeCI(c.meta, f) == Success(c)
  {
    StringsRoundTrip(c.failedJobs, Key.failed_jobs);
  }

  lemma CIRoundTrips(c: CICompleted, extra: Json, kindWord: Json)
    ensures DecodeCI(c.meta, EncodeFields(CI(c))[Key.meta := extra][Key.kind := kindWord]) == Success(c)
  {
    EncodedCIHolds(c, extra, kindWord);
    HoldsCIDecodes(EncodeFields(CI(c))[Key.meta := extra][Key.kind := kindWord], c);
  }

  lemma CommentedRoundTrips(c: PRCommented, extra: Json, kindWord: Json)
    ensures DecodeCommented(c.meta, EncodeFields(Commented(c))[Key.meta := extra][Key.kind := kindWord]) == Success(c)
  {
  }

  lemma ReviewedRoundTrips(r: PRReviewed, extra: Json, kindWord: Json)
    ensures DecodeReviewed(r.meta, EncodeFields(Reviewed(r))[Key.meta := extra][Key.kind := kindWord]) == Success(r)
  {
  }

  lemma ChatRoundTrips(m: ChatMention, extra: Json, kindWord: Json)
    ensures DecodeChat(m.meta, EncodeFields(Chat(m))[Key.meta := extra][Key.kind := kindWord]) == Success(m)
  {
  }

  /** The fields decode to the event when the kind is its class. */
  lemma FieldsRoundTrip(e: Event, extra: Json, kindWord: Json)
    ensures DecodeKind(e.ClassType(), e.Meta(), EncodeFields(e)[Key.meta := extra][Key.kind := kindWord]) == Success(e)
  {
    match e
    case Opened(pr) => PRRoundTrips(pr, extra, kindWord);
    case Updated(pr) => PRRoundTrips(pr, extra, kindWord);
    case CI(c) => CIRoundTrips(c, extra, kindWord);
    case Commented(c) => CommentedRoundTrips(c, extra, kindWord);
    case Reviewed(r) => ReviewedRoundTrips(r, extra, kindWord);
    case Chat(m) => ChatRoundTrips(m, extra, kindWord);
  }

  /** A stored job reads back as the same event, correlation id and delivery id exactly when the metadata's
      event type belongs to the event's class. */
  lemma RoundTripIff(iso: IsoFormat, e: Event, correlationId: string, deliveryId: string)
    requires iso.Faithful()
    ensures JobFromMessage(iso, deliveryId, Parsed(EncodeJob(iso, e, correlationId)))
            == EventJob(e, correlationId, deliveryId)
       <==> e.Meta().eventType == e.ClassType()
  {
    var k := e.Meta().eventType;
    var extra, kindWord := EncodeMeta(iso, e.Meta()), Str(TypeWord(k));
    var f := EncodeEvent(iso, e);
    WordsRoundTrip(k, Key.kind, e.Meta().source);
    MetaRoundTrips(iso, e.Meta());
    FieldsRoundTrip(e, extra, kindWord);
    assert DecodeEvent(iso, f) == DecodeKind(k, e.Meta(), f);
  }

  /** For one: an opened pull request whose metadata says updated reads back as an updated one. */
  lemma MislabelledReadsBackAnother(iso: IsoFormat, pr: PREvent, correlationId: string, deliveryId: string)
    requires iso.Faithful() && pr.meta.eventType == PRUpdatedType
    ensures JobFromMessage(iso, deliveryId, Parsed(EncodeJob(iso, Opened(pr), correlationId)))
         == EventJob(Updated(pr), correlationId, deliveryId)
  {
    RoundTripIff(iso, Updated(pr), correlationId, deliveryId);
    assert EncodeEvent(iso, Opened(pr)) == EncodeEvent(iso, Updated(pr));
  }

  /** What a decoded job can be trusted for: its class is the payload's kind, the version is one, and when the
      metadata agrees with the class, storing it again and reading it back changes nothing. */
  lemma DecodedJobIsStable(iso: IsoFormat, deliveryId: string, json: Json)
    requires iso.Faithful() && JobFromMessage(iso, deliveryId, Parsed(json)).EventJob?
    ensures var job := JobFromMessage(iso, deliveryId, Parsed(json));
            && json.Obj? && IsVersionOne(Get(json.fields, Key.schema_version, Null))
            && Get(json.fields, Key.event, Null).Obj?
            && Get(Get(json.fields, Key.event, Null).fields, Key.kind, Null) == Str(TypeWord(job.event.ClassType()))
            && (job.event.Meta().eventType == job.event.ClassType() ==>
                  JobFromMessage(iso, deliveryId, Parsed(EncodeJob(iso, job.event, job.correlationId))) == job)
  {
    var job := JobFromMessage(iso, deliveryId, Parsed(json));
    hide EncodeJob;
    RoundTripIff(iso, job.event, job.correlationId, deliveryId);
  }
}
