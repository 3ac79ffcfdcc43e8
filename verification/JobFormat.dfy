/** Which stored jobs read back, in terms of the fields they hold: the words, the types and the defaults of the durable
    format (src/app/jobs.py). */
module JobFormat {
  import opened Basics
  import opened Events
  import opened JobCodec

  predicate Strings(g: Fields, keys: set<Key>) {
    forall k <- keys :: k in g && g[k].Str?
  }

  predicate Numbers(g: Fields, keys: set<Key>) {
    forall k <- keys :: k in g && g[k].Int?
  }

  predicate MaybeNumbers(g: Fields, keys: set<Key>) {
    forall k <- keys :: k in g && (g[k].Int? || g[k].Null?)
  }

  /** What a missing key reads as. */
  function Defaults(k: EventType): Fields {
    match k
    case PROpenedType => map[Key.files_changed := Arr([]), Key.head_sha := Str("")]
    case PRUpdatedType => map[Key.files_changed := Arr([]), Key.head_sha := Str("")]
    case PRCommentedType => map[Key.is_review_comment := Bool(false), Key.path := Str(""), Key.line := Null]
    case PRReviewedType => map[Key.body := Str("")]
    case CICompletedType =>
      map[Key.pr_number := Null, Key.failed_jobs := Arr([]), Key.logs_url := Str(""), Key.run_id := Null]
    case ChatMentionType => map[Key.thread_id := Str(""), Key.referenced_pr := Null]
  }

  function FileDefaults(): Fields {
    map[Key.additions := Int(0), Key.deletions := Int(0), Key.previous_filename := Str("")]
  }

  predicate FileReadable(v: Json) {
    && v.Obj?
    && var g := FileDefaults() + v.fields;
       Strings(g, {Key.path, Key.status, Key.previous_filename}) && Numbers(g, {Key.additions, Key.deletions})
  }

  /** The fields of an event of a kind, missing ones filled in, have the right types. */
  predicate Readable(k: EventType, g: Fields) {
    match k
    case PROpenedType => PRReadable(g)
    case PRUpdatedType => PRReadable(g)
    case PRCommentedType =>
      && Strings(g, {Key.repo_full_name, Key.author, Key.body, Key.path})
      && Numbers(g, {Key.pr_number, Key.comment_id}) && MaybeNumbers(g, {Key.line})
      && Key.is_review_comment in g && g[Key.is_review_comment].Bool?
    case PRReviewedType =>
      Strings(g, {Key.repo_full_name, Key.reviewer, Key.state, Key.body}) && Numbers(g, {Key.pr_number})
    case CICompletedType =>
      && Strings(g, {Key.repo_full_name, Key.commit_sha, Key.workflow_name, Key.conclusion, Key.run_url, Key.logs_url})
      && MaybeNumbers(g, {Key.pr_number, Key.run_id})
      && Key.failed_jobs in g && g[Key.failed_jobs].Arr? && forall v <- g[Key.failed_jobs].items :: v.Str?
    case ChatMentionType =>
      && Strings(g, {Key.platform, Key.channel_id, Key.channel_name, Key.author, Key.message, Key.thread_id})
      && MaybeNumbers(g, {Key.referenced_pr})
  }

  predicate PRReadable(g: Fields) {
    && Strings(g, {Key.repo_full_name, Key.title, Key.body, Key.author, Key.base_branch, Key.head_branch, Key.diff_url,
                   Key.head_sha})
    && Numbers(g, {Key.pr_number})
    && Key.files_changed in g && g[Key.files_changed].Arr? && forall v <- g[Key.files_changed].items :: FileReadable(v)
  }

  /** The kind a word stands for. */
  function KindOf(word: string): Option<EventType> {
    if word == "pr_opened" then Some(PROpenedType)
    else if word == "pr_updated" then Some(PRUpdatedType)
    else if word == "pr_commented" then Some(PRCommentedType)
    else if word == "pr_reviewed" then Some(PRReviewedType)
    else if word == "ci_completed" then Some(CICompletedType)
    else if word == "chat_mention" then Some(ChatMentionType)
    else None
  }

  predicate MetaReadable(iso: IsoFormat, g: Fields) {
    && Strings(g, {Key.event_id, Key.event_type, Key.correlation_id, Key.timestamp, Key.source})
    && KindOf(g[Key.event_type].s).Some? && iso.parse(g[Key.timestamp].s).Some?
    && g[Key.source].s in {"github", "slack", "teams", "replay"}
  }

  /** A stored job is readable: an object of version one, a correlation id, and an event of a known kind. */
  predicate JobReadable(iso: IsoFormat, payload: Payload) {
    && payload.Parsed? && payload.json.Obj?
    && var data := payload.json.fields;
       && Key.schema_version in data && data[Key.schema_version] in {Int(1), Bool(true), Float(1.0)}
       && Strings(data, {Key.correlation_id})
       && Key.event in data && data[Key.event].Obj?
       && var f := data[Key.event].fields;
          && Strings(f, {Key.kind}) && KindOf(f[Key.kind].s).Some?
          && Key.meta in f && f[Key.meta].Obj? && MetaReadable(iso, f[Key.meta].fields)
          && var k := KindOf(f[Key.kind].s).value;
             Readable(k, Defaults(k) + f)
  }

  lemma {:induction false} FilesReadableIff(items: seq<Json>)
    ensures DecodeFiles(items).Success? <==> forall v <- items :: FileReadable(v)
  {
    if items != [] {
      FilesReadableIff(items[1..]);
      FileReadableIff(items[0]);
      assert items == [items[0]] + items[1..];
    }
  }

  lemma FileReadableIff(v: Json)
    ensures DecodeFile(v).Success? <==> FileReadable(v)
  {
  }

  lemma {:induction false} TextsReadableIff(items: seq<Json>, field: Key)
    ensures DecodeStrings(items, field).Success? <==> forall v <- items :: v.Str?
  {
    if items != [] {
      TextsReadableIff(items[1..], field);
      assert items == [items[0]] + items[1..];
    }
  }

  lemma PRReadableIff(m: EventMeta, f: Fields)
    ensures DecodePR(m, f).Success? <==> PRReadable(Defaults(PROpenedType) + f)
  {
    hide DecodeFiles, FileReadable;
    var files := Get(f, Key.files_changed, Arr([]));
    if files.Arr? {
      FilesReadableIff(files.items);
    }
  }

  lemma CIReadableIff(m: EventMeta, f: Fields)
    ensures DecodeCI(m, f).Success? <==> Readable(CICompletedType, Defaults(CICompletedType) + f)
  {
    hide DecodeStrings;
    var jobs := Get(f, Key.failed_jobs, Arr([]));
    if jobs.Arr? {
      TextsReadableIff(jobs.items, Key.failed_jobs);
    }
  }

  lemma CommentedReadableIff(m: EventMeta, f: Fields)
    ensures DecodeCommented(m, f).Success? <==> Readable(PRCommentedType, Defaults(PRCommentedType) + f)
  {
  }

  lemma ReviewedReadableIff(m: EventMeta, f: Fields)
    ensures DecodeReviewed(m, f).Success? <==> Readable(PRReviewedType, Defaults(PRReviewedType) + f)
  {
  }

  lemma ChatReadableIff(m: EventMeta, f: Fields)
    ensures DecodeChat(m, f).Success? <==> Readable(ChatMentionType, Defaults(ChatMentionType) + f)
  {
  }

  lemma KindReadableIff(k: EventType, m: EventMeta, f: Fields)
    ensures DecodeKind(k, m, f).Success? <==> Readable(k, Defaults(k) + f)
  {
    PRReadableIff(m, f);
    CIReadableIff(m, f);
    CommentedReadableIff(m, f);
    ReviewedReadableIff(m, f);
    ChatReadableIff(m, f);
    hide DecodePR, DecodeCI, DecodeCommented, DecodeReviewed, DecodeChat, PRReadable, Strings, Numbers, MaybeNumbers;
    assert Defaults(PROpenedType) == Defaults(PRUpdatedType);
  }

  lemma MetaReadableIff(iso: IsoFormat, f: Fields)
    ensures DecodeMeta(iso, f).Success? <==> MetaReadable(iso, f)
  {
  }

  /** Exactly the readable messages become event jobs, of the class their kind names; all others are malformed. */
  lemma JobReadableIff(iso: IsoFormat, deliveryId: string, payload: Payload)
    ensures var job := JobFromMessage(iso, deliveryId, payload);
            && (job.EventJob? <==> JobReadable(iso, payload))
            && (job.EventJob? ==>
                  var data := payload.json.fields;
                  && job.correlationId == data[Key.correlation_id].s
                  && Some(job.event.ClassType()) == KindOf(data[Key.event].fields[Key.kind].s))
  {
    hide DecodeKind, Readable, DecodeMeta, MetaReadable, Defaults;
    if payload.Parsed? && payload.json.Obj? {
      var data := payload.json.fields;
      if Key.event in data && data[Key.event].Obj? {
        var f := data[Key.event].fields;
        if Key.meta in f && f[Key.meta].Obj? {
          MetaReadableIff(iso, f[Key.meta].fields);
          if f[Key.meta].Obj? && DecodeMeta(iso, f[Key.meta].fields).Success? && Strings(f, {Key.kind}) {
            if KindOf(f[Key.kind].s).Some? {
              KindReadableIff(KindOf(f[Key.kind].s).value, DecodeMeta(iso, f[Key.meta].fields).value, f);
            }
          }
        }
      }
    }
  }

  lemma SameFields(d: Fields, f: Fields)
    ensures forall key, absent | key in d ==> absent == d[key] :: Get(d + f, key, absent) == Get(f, key, absent)
  {
  }

  lemma PRDefaults(m: EventMeta, f: Fields)
    ensures DecodePR(m, f) == DecodePR(m, Defaults(PROpenedType) + f)
  {
    SameFields(Defaults(PROpenedType), f);
    hide DecodeFiles, Get;
  }

  lemma CIDefaults(m: EventMeta, f: Fields)
    ensures DecodeCI(m, f) == DecodeCI(m, Defaults(CICompletedType) + f)
  {
    SameFields(Defaults(CICompletedType), f);
    hide DecodeStrings, Get;
  }

  lemma CommentedDefaults(m: EventMeta, f: Fields)
    ensures DecodeCommented(m, f) == DecodeCommented(m, Defaults(PRCommentedType) + f)
  {
    SameFields(Defaults(PRCommentedType), f);
    hide Get;
  }

  lemma ReviewedDefaults(m: EventMeta, f: Fields)
    ensures DecodeReviewed(m, f) == DecodeReviewed(m, Defaults(PRReviewedType) + f)
  {
    SameFields(Defaults(PRReviewedType), f);
    hide Get;
  }

  lemma ChatDefaults(m: EventMeta, f: Fields)
    ensures DecodeChat(m, f) == DecodeChat(m, Defaults(ChatMentionType) + f)
  {
    SameFields(Defaults(ChatMentionType), f);
    hide Get;
  }

  /** A missing field reads as its default. */
  lemma MissingReadsAsDefault(k: EventType, m: EventMeta, f: Fields)
    ensures DecodeKind(k, m, f) == DecodeKind(k, m, Defaults(k) + f)
  {
    PRDefaults(m, f);
    CIDefaults(m, f);
    CommentedDefaults(m, f);
    ReviewedDefaults(m, f);
    ChatDefaults(m, f);
    assert Defaults(PROpenedType) == Defaults(PRUpdatedType);
    hide DecodePR, DecodeCI, DecodeCommented, DecodeReviewed, DecodeChat, Defaults;
  }
}
