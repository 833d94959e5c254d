/**
  The per-message handler (`handle_message`): which updates are looked at, the
  best-effort fetch of the sender's profile photo, the fetch of the message photo,
  the analysis text, the normalised category and the delete-then-ban action.

  Every call to the messaging platform or to the model is an entry of a trace;
  what each call returns comes from an `Env`, a record of functions standing for
  the outside world. A run ends either normally or with an exception that
  escapes the handler.
*/
module Handler {
  import opened Wrappers
  import opened Strings
  import opened Classifier

  // ---------------------------------------------------------------------------
  // The inbound update
  // ---------------------------------------------------------------------------

  datatype User = User(id: int, fullName: string)

  /** `kind` is the chat's type as the platform names it ("private", "group", "supergroup", "channel"). */
  datatype Chat = Chat(id: int, kind: string)

  /** One resolution of a photo; a photo is the list of its resolutions, smallest first. */
  datatype PhotoSize = PhotoSize(fileId: string)

  datatype Message = Message(
    messageId: int,
    chat: Chat,
    sender: Option<User>,
    text: Option<string>,
    caption: Option<string>,
    photo: seq<PhotoSize>)

  datatype Update = Update(message: Option<Message>)

  // ---------------------------------------------------------------------------
  // The outside world and the trace
  // ---------------------------------------------------------------------------

  /** A server-side file reference, as returned by a `get_file` call. */
  datatype FileHandle = FileHandle(filePath: string)

  /** The outcome of a fallible call: a value, or an exception. */
  datatype Attempt<T> = Succeeded(value: T) | Failed

  /**
    The answers the outside world gives. `userProfilePhotos` returns, for a user,
    their profile photos (each a list of resolutions); `deleteMessage` and
    `banChatMember` say whether the call succeeded.
  */
  datatype Env = Env(
    userProfilePhotos: int -> Attempt<seq<seq<PhotoSize>>>,
    getFile: string -> Attempt<FileHandle>,
    downloadToMemory: FileHandle -> Attempt<Bytes>,
    generateContent: seq<Part> -> ModelReply,
    deleteMessage: (int, int) -> bool,
    banChatMember: (int, int) -> bool)

  /** One external call made by the handler, in the order it is made. */
  datatype Call =
    | GetUserProfilePhotos(userId: int, limit: nat)
    | GetFile(fileId: string)
    | DownloadToMemory(file: FileHandle)
    | GenerateContent(parts: seq<Part>)
    | DeleteMessage(chatId: int, messageId: int)
    | BanChatMember(chatId: int, userId: int)

  /** The exceptions that escape the handler. */
  datatype Error =
    | MessagePhotoUnavailable   // fetching or downloading the message photo failed
    | ReplyNotObject            // the decoded reply has no `.get`
    | CategoryNotString         // the category value has no `.upper()`

  datatype Outcome = Returned | Raised(error: Error)

  datatype Run = Run(trace: seq<Call>, outcome: Outcome)

  // ---------------------------------------------------------------------------
  // Gating
  // ---------------------------------------------------------------------------

  predicate InGroup(c: Chat) {
    c.kind == "group" || c.kind == "supergroup"
  }

  /** The update carries a message, from a group or supergroup, with a known sender. */
  predicate Qualifies(u: Update) {
    u.message.Some? && InGroup(u.message.value.chat) && u.message.value.sender.Some?
  }

  // ---------------------------------------------------------------------------
  // Fetching photos
  // ---------------------------------------------------------------------------

  /** The calls made to fetch a photo, and the bytes obtained or the failure. */
  datatype PhotoFetch = PhotoFetch(calls: seq<Call>, result: Attempt<Bytes>)

  /** Fetches the largest resolution of a photo: `get_file` on it, then a download. */
  function DownloadLargest(env: Env, sizes: seq<PhotoSize>): (f: PhotoFetch)
    requires sizes != []
    ensures 1 <= |f.calls| <= 2 && f.calls[0] == GetFile(sizes[|sizes| - 1].fileId)
    ensures f.result.Succeeded? <==>
      env.getFile(sizes[|sizes| - 1].fileId).Succeeded? &&
      env.downloadToMemory(env.getFile(sizes[|sizes| - 1].fileId).value).Succeeded?
  {
    var id := sizes[|sizes| - 1].fileId;
    match env.getFile(id)
    case Failed => PhotoFetch([GetFile(id)], Failed)
    case Succeeded(file) => PhotoFetch([GetFile(id), DownloadToMemory(file)], env.downloadToMemory(file))
  }

  /** The calls made for the sender's profile photo, and the bytes kept (empty when there are none). */
  datatype ProfileFetch = ProfileFetch(calls: seq<Call>, bytes: Bytes)

  /**
    The best-effort profile photo fetch: one profile photo is asked for; when
    there is one, its largest resolution is downloaded. Any failure in the chain
    (including a first photo with no resolutions) leaves the bytes empty.
  */
  function FetchProfilePhoto(env: Env, userId: int): ProfileFetch {
    var ask := [GetUserProfilePhotos(userId, 1)];
    match env.userProfilePhotos(userId)
    case Failed => ProfileFetch(ask, [])
    case Succeeded(photos) =>
      if photos == [] || photos[0] == [] then ProfileFetch(ask, [])
      else
        var f := DownloadLargest(env, photos[0]);
        ProfileFetch(ask + f.calls, if f.result.Succeeded? then f.result.value else [])
  }

  /** The message photo fetch: nothing when the message has no photo, otherwise its largest resolution. */
  function FetchMessagePhoto(env: Env, photo: seq<PhotoSize>): PhotoFetch {
    if photo == [] then PhotoFetch([], Succeeded([])) else DownloadLargest(env, photo)
  }

  // ---------------------------------------------------------------------------
  // The analysis text
  // ---------------------------------------------------------------------------

  /** `message.text or message.caption`, with an absent value read as the empty string. */
  function Content(m: Message): string {
    if m.text.Some? && m.text.value != "" then m.text.value
    else if m.caption.Some? then m.caption.value
    else ""
  }

  const UsernameLabel := "Username: "
  const UserIdLabel := "\nUser ID: "
  const MessageLabel := "\nMessage: "
  const NoTextPlaceholder := "[No Text]"

  /** The text sent to the model in place of the raw message. */
  function AnalysisText(name: string, id: int, content: string): string {
    UsernameLabel + name + UserIdLabel + IntToString(id) + MessageLabel +
    (if content == "" then NoTextPlaceholder else content)
  }

  /** The three fields an analysis text carries. */
  datatype Analysis = Analysis(name: string, id: int, message: string)

  function DropPrefix(s: string, prefix: string): Option<string> {
    if |prefix| <= |s| && s[..|prefix|] == prefix then Some(s[|prefix|..]) else None
  }

  /** Reads the user id line and the message back out of the part after the name. */
  function ParseIdAndMessage(rest: string): Option<(int, string)> {
    var j := IndexOf(rest, '\n');
    match (ParseInt(rest[..j]), DropPrefix(rest[j..], MessageLabel))
    case (Some(id), Some(body)) => Some((id, body))
    case _ => None
  }

  /** Reads the name, the user id and the message back out of an analysis text. */
  function ParseAnalysis(t: string): Option<Analysis> {
    match DropPrefix(t, UsernameLabel)
    case None => None
    case Some(rest) =>
      var n := IndexOf(rest, '\n');
      match DropPrefix(rest[n..], UserIdLabel)
      case None => None
      case Some(rest2) =>
        match ParseIdAndMessage(rest2)
        case None => None
        case Some((id, body)) => Some(Analysis(rest[..n], id, body))
  }

  lemma DropPrefixOfConcat(prefix: string, s: string)
    ensures DropPrefix(prefix + s, prefix) == Some(s)
  {
    assert (prefix + s)[..|prefix|] == prefix && (prefix + s)[|prefix|..] == s;
  }

  /** Splitting `a + b` at its first line break, when `a` has none and `b` starts with one, gives back `a` and `b`. */
  lemma SplitAtNewline(a: string, b: string)
    requires '\n' !in a && b != [] && b[0] == '\n'
    ensures IndexOf(a + b, '\n') == |a|
    ensures (a + b)[..|a|] == a && (a + b)[|a|..] == b
  {
    IndexOfAfter(a, b, '\n');
  }

  /** The id line and the message after it are read back as written. */
  lemma IdAndMessageRoundTrip(id: int, body: string)
    ensures ParseIdAndMessage(IntToString(id) + (MessageLabel + body)) == Some((id, body))
  {
    var digits := IntToString(id);
    var tail := MessageLabel + body;
    IntToStringNoNewline(id);
    SplitAtNewline(digits, tail);
    IntToStringRoundTrip(id);
    DropPrefixOfConcat(MessageLabel, body);
  }

  /**
    The analysis text loses nothing: for a display name without a line break, the
    name, the id and the message (or the placeholder) can all be read back.
  */
  lemma AnalysisTextRoundTrip(name: string, id: int, content: string)
    requires '\n' !in name
    ensures ParseAnalysis(AnalysisText(name, id, content)) ==
      Some(Analysis(name, id, if content == "" then NoTextPlaceholder else content))
  {
    var body := if content == "" then NoTextPlaceholder else content;
    var rest2 := IntToString(id) + (MessageLabel + body);
    var tail := UserIdLabel + rest2;
    var rest := name + tail;
    assert AnalysisText(name, id, content) == UsernameLabel + rest;
    DropPrefixOfConcat(UsernameLabel, rest);
    SplitAtNewline(name, tail);
    DropPrefixOfConcat(UserIdLabel, rest2);
    IdAndMessageRoundTrip(id, body);
  }

  /** Distinct senders or messages give distinct analysis texts, as long as names have no line break. */
  lemma AnalysisTextInjective(name1: string, id1: int, content1: string, name2: string, id2: int, content2: string)
    requires '\n' !in name1 && '\n' !in name2
    requires AnalysisText(name1, id1, content1) == AnalysisText(name2, id2, content2)
    ensures name1 == name2 && id1 == id2
    ensures (if content1 == "" then NoTextPlaceholder else content1) == (if content2 == "" then NoTextPlaceholder else content2)
  {
    AnalysisTextRoundTrip(name1, id1, content1);
    AnalysisTextRoundTrip(name2, id2, content2);
  }

  // ---------------------------------------------------------------------------
  // The category and the action
  // ---------------------------------------------------------------------------

  /** Reading the category: either a category name or an exception. */
  datatype CategoryRead = Category(name: string) | Raises(error: Error)

  /** `classification.get("category", "ERROR").upper()`. */
  function NormalisedCategory(v: JsonValue): CategoryRead {
    match v
    case NotObject => Raises(ReplyNotObject)
    case Object(NoCategory) => Category(Upper(ErrorCategory))
    case Object(CategoryString(c)) => Category(Upper(c))
    case Object(CategoryOther) => Raises(CategoryNotString)
  }

  /** The categories that lead to delete-then-ban. */
  const FlaggedCategories := ["NUDITY", "VIOLENCE", "CASINO_ADS", "SPAM"]

  predicate IsFlagged(category: string) {
    category in FlaggedCategories
  }

  /**
    Any failure of the classifier, and a reply without a category key, come out
    as the category ERROR, which is not flagged.
  */
  lemma ErrorsReadAsError(reply: ModelReply, decode: string -> Decoded)
    requires reply.CallFailed? || reply.text.None? || decode(CleanReply(reply.text.value)).Malformed? ||
             decode(CleanReply(reply.text.value)) == Parsed(Object(NoCategory))
    ensures NormalisedCategory(Interpret(reply, decode)) == Category(ErrorCategory)
    ensures !IsFlagged(ErrorCategory)
  {
    assert Upper(ErrorCategory) == ErrorCategory by {
      UpperMatchesIgnoringCase(ErrorCategory, ErrorCategory);
    }
  }

  /** A reply that decodes to an object with a string category is read as that string, upper-cased. */
  lemma ReadStringCategory(reply: ModelReply, decode: string -> Decoded, category: string)
    requires reply.Reply? && reply.text.Some?
    requires decode(CleanReply(reply.text.value)) == Parsed(Object(CategoryString(category)))
    ensures NormalisedCategory(Interpret(reply, decode)) == Category(Upper(category))
  {
  }

  /** An ASCII string upper-cases to one of a list of upper-case words exactly when it spells one of them in some mixture of cases. */
  lemma UpperInWordsIgnoringCase(c: string, words: seq<string>)
    requires forall i :: 0 <= i < |c| ==> IsAscii(c[i])
    requires forall w :: w in words ==> IsUpperWord(w)
    ensures Upper(c) in words <==> exists w :: w in words && SpellsIgnoringCase(c, w)
  {
    forall w | w in words ensures Upper(c) == w <==> SpellsIgnoringCase(c, w) {
      UpperMatchesIgnoringCase(c, w);
    }
    if Upper(c) in words {
      assert SpellsIgnoringCase(c, Upper(c));
    }
  }

  /** The flagged names are upper-case words. */
  lemma FlaggedWordsAreUpper()
    ensures forall w :: w in FlaggedCategories ==> IsUpperWord(w)
  {
  }

  /**
    For a category written in ASCII, it is flagged after upper-casing exactly when
    it spells one of the four flagged names in some mixture of cases, so "spam"
    counts as SPAM and "Safe" as nothing.
  */
  lemma FlaggedIgnoringCase(c: string)
    requires forall i :: 0 <= i < |c| ==> IsAscii(c[i])
    ensures IsFlagged(Upper(c)) <==> exists w :: w in FlaggedCategories && SpellsIgnoringCase(c, w)
  {
    FlaggedWordsAreUpper();
    UpperInWordsIgnoringCase(c, FlaggedCategories);
  }

  /** The long s (U+017F) upper-cases to S, so a reply category written with it is flagged as SPAM too. */
  lemma LongSSpamIsFlagged()
    ensures Upper("\U{17F}pam") == "SPAM" && IsFlagged(Upper("\U{17F}pam"))
  {
    assert Upper("\U{17F}pam") == UpperChar('\U{17F}') + Upper("pam");
  }

  /**
    The action for a category: nothing unless it is flagged; otherwise delete the
    message and, only when the delete succeeded, ban the sender.
  */
  function Moderate(env: Env, chatId: int, messageId: int, userId: int, category: string): seq<Call> {
    if !IsFlagged(category) then []
    else if !env.deleteMessage(chatId, messageId) then [DeleteMessage(chatId, messageId)]
    else [DeleteMessage(chatId, messageId), BanChatMember(chatId, userId)]
  }

  /** The action rule: delete is attempted exactly for flagged categories, ban exactly when that delete succeeded, and never before it. */
  lemma ModerateRule(env: Env, chatId: int, messageId: int, userId: int, category: string)
    ensures var a := Moderate(env, chatId, messageId, userId, category);
      && (a == [] <==> !IsFlagged(category))
      && |a| <= 2
      && (a != [] ==> a[0] == DeleteMessage(chatId, messageId))
      && (BanChatMember(chatId, userId) in a <==> IsFlagged(category) && env.deleteMessage(chatId, messageId))
      && (|a| == 2 ==> a[1] == BanChatMember(chatId, userId))
  {
  }

  // ---------------------------------------------------------------------------
  // The whole handler
  // ---------------------------------------------------------------------------

  function SenderOf(u: Update): User
    requires Qualifies(u)
  {
    u.message.value.sender.value
  }

  function ProfileOf(u: Update, env: Env): ProfileFetch
    requires Qualifies(u)
  {
    FetchProfilePhoto(env, SenderOf(u).id)
  }

  function PhotoOf(u: Update, env: Env): PhotoFetch
    requires Qualifies(u)
  {
    FetchMessagePhoto(env, u.message.value.photo)
  }

  /** The handler gets as far as calling the model: the message photo, if any, was obtained, and there is text or photo bytes. */
  predicate ReachesClassifier(u: Update, env: Env)
    requires Qualifies(u)
  {
    PhotoOf(u, env).result.Succeeded? &&
    (Content(u.message.value) != "" || PhotoOf(u, env).result.value != [])
  }

  function AnalysisOf(u: Update): string
    requires Qualifies(u)
  {
    AnalysisText(SenderOf(u).fullName, SenderOf(u).id, Content(u.message.value))
  }

  /** The content list the handler sends. */
  function RequestOf(u: Update, env: Env): seq<Part>
    requires Qualifies(u) && PhotoOf(u, env).result.Succeeded?
  {
    RequestParts(AnalysisOf(u), PhotoOf(u, env).result.value, ProfileOf(u, env).bytes)
  }

  /** The category the handler acts on, or the exception reading it raises. */
  function VerdictOf(u: Update, env: Env, decode: string -> Decoded): CategoryRead
    requires Qualifies(u) && PhotoOf(u, env).result.Succeeded?
  {
    NormalisedCategory(Interpret(env.generateContent(RequestOf(u, env)), decode))
  }

  /** Everything the handler does with one update: the calls it makes, in order, and how it ends. */
  function Handle(u: Update, env: Env, decode: string -> Decoded): Run {
    if !Qualifies(u) then Run([], Returned)
    else
      var m := u.message.value;
      var fetches := ProfileOf(u, env).calls + PhotoOf(u, env).calls;
      if PhotoOf(u, env).result.Failed? then Run(fetches, Raised(MessagePhotoUnavailable))
      else if !ReachesClassifier(u, env) then Run(fetches, Returned)
      else
        var asked := fetches + [GenerateContent(RequestOf(u, env))];
        match VerdictOf(u, env, decode)
        case Raises(e) => Run(asked, Raised(e))
        case Category(c) => Run(asked + Moderate(env, m.chat.id, m.messageId, SenderOf(u).id, c), Returned)
  }

  // ---------------------------------------------------------------------------
  // What the handler promises
  // ---------------------------------------------------------------------------

  /** The model is not called. */
  predicate NoClassifyCall(trace: seq<Call>) {
    forall i :: 0 <= i < |trace| ==> !trace[i].GenerateContent?
  }

  /** Neither delete nor ban is attempted. */
  predicate NoModeration(trace: seq<Call>) {
    forall i :: 0 <= i < |trace| ==> !trace[i].DeleteMessage? && !trace[i].BanChatMember?
  }

  /** Only calls that fetch photos. */
  predicate OnlyFetches(trace: seq<Call>) {
    forall i :: 0 <= i < |trace| ==> trace[i].GetUserProfilePhotos? || trace[i].GetFile? || trace[i].DownloadToMemory?
  }

  /** The photo fetches make only fetch calls, and the profile fetch starts by asking for one profile photo. */
  lemma FetchCallsAreFetches(u: Update, env: Env)
    requires Qualifies(u)
    ensures OnlyFetches(ProfileOf(u, env).calls + PhotoOf(u, env).calls)
    ensures ProfileOf(u, env).calls != [] && ProfileOf(u, env).calls[0] == GetUserProfilePhotos(SenderOf(u).id, 1)
  {
    var m := u.message.value;
    if m.photo != [] {
      var f := DownloadLargest(env, m.photo);
      assert OnlyFetches(f.calls);
    }
  }

  /** Fetch calls are neither model calls nor moderation calls, nor is the model call that may follow them. */
  lemma FetchesThenRequest(fetches: seq<Call>, parts: seq<Part>)
    requires OnlyFetches(fetches)
    ensures NoClassifyCall(fetches) && NoModeration(fetches)
    ensures NoModeration(fetches + [GenerateContent(parts)])
  {
    var asked := fetches + [GenerateContent(parts)];
    forall i | 0 <= i < |asked| ensures !asked[i].DeleteMessage? && !asked[i].BanChatMember? {
      if i < |fetches| {
        assert asked[i] == fetches[i];
      }
    }
  }

  /**
    Gating: the handler makes no call at all exactly when the update has no
    message, comes from a chat that is not a group or supergroup, or has no
    sender; otherwise its first call asks for the sender's profile photo.
  */
  lemma GateRule(u: Update, env: Env, decode: string -> Decoded)
    ensures Handle(u, env, decode).trace == [] <==> !Qualifies(u)
    ensures !Qualifies(u) ==> Handle(u, env, decode).outcome == Returned
    ensures Qualifies(u) ==> Handle(u, env, decode).trace[0] == GetUserProfilePhotos(SenderOf(u).id, 1)
  {
    if Qualifies(u) {
      FetchCallsAreFetches(u, env);
      var fetches := ProfileOf(u, env).calls + PhotoOf(u, env).calls;
      assert Handle(u, env, decode).trace[..|fetches|] == fetches;
    }
  }

  /**
    With neither text, caption nor photo, the handler stops after the profile
    photo fetch: it fetched, and it neither calls the model nor acts.
  */
  lemma NothingToClassify(u: Update, env: Env, decode: string -> Decoded)
    requires Qualifies(u) && Content(u.message.value) == "" && u.message.value.photo == []
    ensures Handle(u, env, decode) == Run(ProfileOf(u, env).calls, Returned)
    ensures Handle(u, env, decode).trace[0] == GetUserProfilePhotos(SenderOf(u).id, 1)
    ensures NoClassifyCall(Handle(u, env, decode).trace) && NoModeration(Handle(u, env, decode).trace)
  {
    FetchCallsAreFetches(u, env);
    assert ProfileOf(u, env).calls + PhotoOf(u, env).calls == ProfileOf(u, env).calls;
  }

  /** The content list opens with the instructions and then the analysis text, which is never empty. */
  lemma RequestStartsWithAnalysis(u: Update, env: Env)
    requires Qualifies(u) && PhotoOf(u, env).result.Succeeded?
    ensures AnalysisOf(u) != ""
    ensures |RequestOf(u, env)| >= 2 && RequestOf(u, env)[0] == Instructions && RequestOf(u, env)[1] == Text(AnalysisOf(u))
  {
    assert AnalysisOf(u)[..|UsernameLabel|] == UsernameLabel;
    RequestPartsShape(AnalysisOf(u), PhotoOf(u, env).result.value, ProfileOf(u, env).bytes);
  }

  /**
    The model is called exactly when the update qualifies, the message photo
    (if any) was obtained, and there is text or photo bytes to show it; the call
    then comes right after the fetches.
  */
  lemma ClassifyCallRule(u: Update, env: Env, decode: string -> Decoded)
    ensures !NoClassifyCall(Handle(u, env, decode).trace) <==> Qualifies(u) && ReachesClassifier(u, env)
    ensures Qualifies(u) && ReachesClassifier(u, env) ==>
      Handle(u, env, decode).trace[|ProfileOf(u, env).calls + PhotoOf(u, env).calls|] == GenerateContent(RequestOf(u, env))
  {
    if Qualifies(u) {
      FetchCallsAreFetches(u, env);
      var fetches := ProfileOf(u, env).calls + PhotoOf(u, env).calls;
      FetchesThenRequest(fetches, []);
      var t := Handle(u, env, decode).trace;
      if ReachesClassifier(u, env) {
        var asked := fetches + [GenerateContent(RequestOf(u, env))];
        assert t[..|asked|] == asked;
        assert t[|fetches|] == asked[|fetches|];
      } else {
        assert t == fetches;
      }
    }
  }

  /**
    The message photo is not guarded: the handler raises because of it exactly
    when the message has a photo and fetching or downloading it failed, and it
    then neither calls the model nor acts.
  */
  lemma MessagePhotoFailureRaises(u: Update, env: Env, decode: string -> Decoded)
    ensures Handle(u, env, decode).outcome == Raised(MessagePhotoUnavailable) <==>
      Qualifies(u) && u.message.value.photo != [] && PhotoOf(u, env).result.Failed?
    ensures Handle(u, env, decode).outcome == Raised(MessagePhotoUnavailable) ==>
      NoClassifyCall(Handle(u, env, decode).trace) && NoModeration(Handle(u, env, decode).trace)
  {
    if Qualifies(u) {
      FetchCallsAreFetches(u, env);
    }
  }

  /**
    The profile photo fetch is best effort: when asking for the profile photos
    fails, the handler does exactly what it does for a sender without a profile
    photo.
  */
  lemma ProfileFailureIsAbsence(u: Update, env: Env, decode: string -> Decoded)
    requires Qualifies(u) && env.userProfilePhotos(SenderOf(u).id).Failed?
    ensures Handle(u, env, decode) == Handle(u, env.(userProfilePhotos := (id: int) => Succeeded([])), decode)
  {
    var env' := env.(userProfilePhotos := (id: int) => Succeeded([]));
    assert ProfileOf(u, env) == ProfileOf(u, env');
    assert PhotoOf(u, env) == PhotoOf(u, env');
  }

  /** Profile bytes are handed on only when every step of the profile fetch succeeded. */
  lemma ProfileBytesNeedFullSuccess(env: Env, userId: int)
    ensures var b := FetchProfilePhoto(env, userId).bytes;
      b != [] ==>
        var photos := env.userProfilePhotos(userId);
        && photos.Succeeded? && photos.value != [] && photos.value[0] != []
        && var id := photos.value[0][|photos.value[0]| - 1].fileId;
        && env.getFile(id).Succeeded?
        && env.downloadToMemory(env.getFile(id).value) == Succeeded(b)
  {
  }

  /**
    Fail-open: when the model call fails, returns no text, returns text that does
    not parse, or returns an object without a category, the handler ends normally
    right after the model call, without deleting or banning.
  */
  lemma ClassifierFailureIsFailOpen(u: Update, env: Env, decode: string -> Decoded)
    requires Qualifies(u) && ReachesClassifier(u, env)
    requires var reply := env.generateContent(RequestOf(u, env));
      reply.CallFailed? || reply.text.None? || decode(CleanReply(reply.text.value)).Malformed? ||
      decode(CleanReply(reply.text.value)) == Parsed(Object(NoCategory))
    ensures Handle(u, env, decode) ==
      Run(ProfileOf(u, env).calls + PhotoOf(u, env).calls + [GenerateContent(RequestOf(u, env))], Returned)
    ensures NoModeration(Handle(u, env, decode).trace)
  {
    ErrorsReadAsError(env.generateContent(RequestOf(u, env)), decode);
    FetchCallsAreFetches(u, env);
    FetchesThenRequest(ProfileOf(u, env).calls + PhotoOf(u, env).calls, RequestOf(u, env));
  }

  /**
    A reply the handler cannot read (not an object, or a category that is not a
    string) raises right after the model call, before any action.
  */
  lemma UnreadableReplyRaises(u: Update, env: Env, decode: string -> Decoded)
    requires Qualifies(u) && ReachesClassifier(u, env) && VerdictOf(u, env, decode).Raises?
    ensures Handle(u, env, decode) ==
      Run(ProfileOf(u, env).calls + PhotoOf(u, env).calls + [GenerateContent(RequestOf(u, env))],
          Raised(VerdictOf(u, env, decode).error))
    ensures NoModeration(Handle(u, env, decode).trace)
  {
    FetchCallsAreFetches(u, env);
    FetchesThenRequest(ProfileOf(u, env).calls + PhotoOf(u, env).calls, RequestOf(u, env));
  }

  /**
    The action rule end to end: once the category is read, the handler ends
    normally after the model call and the moderation calls for that category,
    which are delete-then-ban for a flagged category, delete alone when the delete
    fails, and nothing otherwise.
  */
  lemma ActionRule(u: Update, env: Env, decode: string -> Decoded)
    requires Qualifies(u) && ReachesClassifier(u, env) && VerdictOf(u, env, decode).Category?
    ensures var m := u.message.value;
      var c := VerdictOf(u, env, decode).name;
      var before := ProfileOf(u, env).calls + PhotoOf(u, env).calls + [GenerateContent(RequestOf(u, env))];
      && Handle(u, env, decode).outcome == Returned
      && Handle(u, env, decode).trace == before + Moderate(env, m.chat.id, m.messageId, SenderOf(u).id, c)
      && (!IsFlagged(c) ==> Handle(u, env, decode).trace == before)
      && (IsFlagged(c) && !env.deleteMessage(m.chat.id, m.messageId) ==>
            Handle(u, env, decode).trace == before + [DeleteMessage(m.chat.id, m.messageId)])
      && (IsFlagged(c) && env.deleteMessage(m.chat.id, m.messageId) ==>
            Handle(u, env, decode).trace == before + [DeleteMessage(m.chat.id, m.messageId), BanChatMember(m.chat.id, SenderOf(u).id)])
  {
  }

  /** Some call in the trace is a ban. */
  predicate HasBan(trace: seq<Call>) {
    exists i :: 0 <= i < |trace| && trace[i].BanChatMember?
  }

  /** Appending to a trace without moderation calls: a ban is in the whole exactly when it is in the tail. */
  lemma HasBanAfter(before: seq<Call>, tail: seq<Call>)
    requires NoModeration(before)
    ensures !HasBan(before)
    ensures HasBan(before + tail) <==> HasBan(tail)
  {
    var t := before + tail;
    if HasBan(t) {
      var i :| 0 <= i < |t| && t[i].BanChatMember?;
      assert i >= |before| && t[i] == tail[i - |before|];
    }
    if HasBan(tail) {
      var i :| 0 <= i < |tail| && tail[i].BanChatMember?;
      assert t[|before| + i] == tail[i];
    }
  }

  /**
    A ban is attempted exactly when the update qualifies, the model was called,
    the category read is flagged and the delete before it succeeded; it is then
    the last call, right after the delete.
  */
  lemma BanRule(u: Update, env: Env, decode: string -> Decoded)
    ensures HasBan(Handle(u, env, decode).trace) <==>
      Qualifies(u) && ReachesClassifier(u, env) && VerdictOf(u, env, decode).Category? &&
      IsFlagged(VerdictOf(u, env, decode).name) &&
      env.deleteMessage(u.message.value.chat.id, u.message.value.messageId)
    ensures var t := Handle(u, env, decode).trace;
      HasBan(t) ==>
        |t| >= 2 && t[|t| - 2] == DeleteMessage(u.message.value.chat.id, u.message.value.messageId) &&
        t[|t| - 1] == BanChatMember(u.message.value.chat.id, SenderOf(u).id)
  {
    var t := Handle(u, env, decode).trace;
    if Qualifies(u) {
      FetchCallsAreFetches(u, env);
      var fetches := ProfileOf(u, env).calls + PhotoOf(u, env).calls;
      FetchesThenRequest(fetches, []);
      if !ReachesClassifier(u, env) {
        assert t == fetches;
        HasBanAfter(fetches, []);
      } else {
        var before := fetches + [GenerateContent(RequestOf(u, env))];
        FetchesThenRequest(fetches, RequestOf(u, env));
        if VerdictOf(u, env, decode).Raises? {
          assert t == before;
          HasBanAfter(before, []);
        } else {
          var m := u.message.value;
          var c := VerdictOf(u, env, decode).name;
          var a := Moderate(env, m.chat.id, m.messageId, SenderOf(u).id, c);
          assert t == before + a;
          HasBanAfter(before, a);
          if IsFlagged(c) && env.deleteMessage(m.chat.id, m.messageId) {
            assert a[1].BanChatMember?;
          } else {
            assert !HasBan(a);
          }
        }
      }
    }
  }

  /** The result of the ban call never matters: its failure is swallowed. */
  lemma BanFailureIgnored(u: Update, env: Env, decode: string -> Decoded, ban: (int, int) -> bool)
    ensures Handle(u, env, decode) == Handle(u, env.(banChatMember := ban), decode)
  {
    var env' := env.(banChatMember := ban);
    if Qualifies(u) {
      assert ProfileOf(u, env) == ProfileOf(u, env');
      assert PhotoOf(u, env) == PhotoOf(u, env');
    }
  }

  /** A text message whose sender's profile photos cannot be fetched: one fetch call, and the analysis text alone goes to the model. */
  lemma TextOnlyRequest(u: Update, env: Env)
    requires Qualifies(u) && u.message.value.photo == [] && Content(u.message.value) != ""
    requires env.userProfilePhotos(SenderOf(u).id).Failed?
    ensures ProfileOf(u, env) == ProfileFetch([GetUserProfilePhotos(SenderOf(u).id, 1)], [])
    ensures PhotoOf(u, env) == PhotoFetch([], Succeeded([]))
    ensures ReachesClassifier(u, env)
    ensures RequestOf(u, env) == [Instructions, Text(AnalysisOf(u))]
  {
    assert ProfileOf(u, env) == ProfileFetch([GetUserProfilePhotos(SenderOf(u).id, 1)], []);
    assert PhotoOf(u, env) == PhotoFetch([], Succeeded([]));
    assert AnalysisOf(u) != "" by {
      assert AnalysisOf(u)[..|UsernameLabel|] == UsernameLabel;
    }
    assert RequestOf(u, env) == RequestParts(AnalysisOf(u), [], []);
  }

  /** A reply that decodes to an object whose category is a string is read as that string, upper-cased. */
  lemma VerdictOfStringCategory(u: Update, env: Env, decode: string -> Decoded, category: string)
    requires Qualifies(u) && PhotoOf(u, env).result.Succeeded?
    requires var reply := env.generateContent(RequestOf(u, env));
      reply.Reply? && reply.text.Some? && decode(CleanReply(reply.text.value)) == Parsed(Object(CategoryString(category)))
    ensures VerdictOf(u, env, decode) == Category(Upper(category))
  {
    ReadStringCategory(env.generateContent(RequestOf(u, env)), decode, category);
  }

  /** A flagged category whose delete succeeds: the handler ends normally after the model call, the delete and the ban. */
  lemma FlaggedAndDeleted(u: Update, env: Env, decode: string -> Decoded)
    requires Qualifies(u) && ReachesClassifier(u, env) && VerdictOf(u, env, decode).Category?
    requires IsFlagged(VerdictOf(u, env, decode).name)
    requires env.deleteMessage(u.message.value.chat.id, u.message.value.messageId)
    ensures Handle(u, env, decode) ==
      Run(ProfileOf(u, env).calls + PhotoOf(u, env).calls + [GenerateContent(RequestOf(u, env)),
          DeleteMessage(u.message.value.chat.id, u.message.value.messageId),
          BanChatMember(u.message.value.chat.id, SenderOf(u).id)], Returned)
  {
    ActionRule(u, env, decode);
  }

  /**
    A text message without a photo, from a sender whose profile photos cannot be
    fetched, that the model calls "spam": the handler asks for the profile photo,
    calls the model with the analysis text alone, deletes the message and, the
    delete succeeding, bans the sender.
  */
  lemma SpamScenario(u: Update, env: Env, decode: string -> Decoded)
    requires Qualifies(u) && u.message.value.photo == [] && Content(u.message.value) != ""
    requires env.userProfilePhotos(SenderOf(u).id).Failed?
    requires var reply := env.generateContent([Instructions, Text(AnalysisOf(u))]);
      reply.Reply? && reply.text.Some? && decode(CleanReply(reply.text.value)) == Parsed(Object(CategoryString("spam")))
    requires env.deleteMessage(u.message.value.chat.id, u.message.value.messageId)
    ensures Handle(u, env, decode) == Run([
      GetUserProfilePhotos(SenderOf(u).id, 1),
      GenerateContent([Instructions, Text(AnalysisOf(u))]),
      DeleteMessage(u.message.value.chat.id, u.message.value.messageId),
      BanChatMember(u.message.value.chat.id, SenderOf(u).id)], Returned)
  {
    TextOnlyRequest(u, env);
    VerdictOfStringCategory(u, env, decode, "spam");
    assert Upper("spam") == "SPAM";
    FlaggedAndDeleted(u, env, decode);
  }

  /**
    The guarded block that fetches the sender's profile photo: the calls it makes,
    and the bytes kept. Every failure is swallowed and leaves the bytes empty.
  */
  method FetchProfilePhotoBytes(env: Env, userId: int) returns (calls: seq<Call>, profilePhotoBytes: Bytes)
    ensures ProfileFetch(calls, profilePhotoBytes) == FetchProfilePhoto(env, userId)
  {
    profilePhotoBytes := [];
    calls := [GetUserProfilePhotos(userId, 1)];
    var profilePhotos := env.userProfilePhotos(userId);
    if profilePhotos.Succeeded? && profilePhotos.value != [] && profilePhotos.value[0] != [] {
      var sizes := profilePhotos.value[0];
      var fileId := sizes[|sizes| - 1].fileId;
      calls := calls + [GetFile(fileId)];
      var photoFile := env.getFile(fileId);
      if photoFile.Succeeded? {
        calls := calls + [DownloadToMemory(photoFile.value)];
        var data := env.downloadToMemory(photoFile.value);
        if data.Succeeded? {
          profilePhotoBytes := data.value;
        }
      }
    }
  }

  /**
    The unguarded fetch of the message photo: the calls it makes, and the bytes
    or the failure that the handler lets escape.
  */
  method FetchMessagePhotoBytes(env: Env, photo: seq<PhotoSize>) returns (calls: seq<Call>, photoBytes: Attempt<Bytes>)
    ensures PhotoFetch(calls, photoBytes) == FetchMessagePhoto(env, photo)
  {
    calls := [];
    photoBytes := Succeeded([]);
    if photo != [] {
      var fileId := photo[|photo| - 1].fileId;
      calls := calls + [GetFile(fileId)];
      var photoFile := env.getFile(fileId);
      if photoFile.Failed? {
        photoBytes := Failed;
        return;
      }
      calls := calls + [DownloadToMemory(photoFile.value)];
      photoBytes := env.downloadToMemory(photoFile.value);
    }
  }

  /**
    The action block: for a flagged category, delete the message and then ban
    the sender. Delete and ban share one guard, so a failed delete skips the ban;
    the failure itself is swallowed.
  */
  method Act(env: Env, chatId: int, messageId: int, userId: int, category: string) returns (calls: seq<Call>)
    ensures calls == Moderate(env, chatId, messageId, userId, category)
  {
    calls := [];
    if category in FlaggedCategories {
      calls := calls + [DeleteMessage(chatId, messageId)];
      var deleted := env.deleteMessage(chatId, messageId);
      if deleted {
        calls := calls + [BanChatMember(chatId, userId)];
        var banned := env.banChatMember(chatId, userId);
      }
    }
  }

  /**
    `handle_message`, step by step: each external call is appended to the trace
    as it is made, and the method ends where the source returns or raises.
  */
  method HandleMessage(update: Update, env: Env, decode: string -> Decoded)
    returns (trace: seq<Call>, outcome: Outcome)
    ensures Run(trace, outcome) == Handle(update, env, decode)
  {
    trace := [];
    outcome := Returned;
    var message := update.message;
    if message.None? || !InGroup(message.value.chat) || message.value.sender.None? {
      return;
    }
    var msg := message.value;
    var chatId := msg.chat.id;
    var user := msg.sender.value;
    var userId := user.id;
    var userName := user.fullName;
    assert Qualifies(update) && msg == update.message.value && user == SenderOf(update);

    var profileCalls, profilePhotoBytes := FetchProfilePhotoBytes(env, userId);
    trace := trace + profileCalls;

    var photoCalls, photo := FetchMessagePhotoBytes(env, msg.photo);
    trace := trace + photoCalls;
    assert ProfileFetch(profileCalls, profilePhotoBytes) == ProfileOf(update, env);
    assert PhotoFetch(photoCalls, photo) == PhotoOf(update, env);
    assert trace == ProfileOf(update, env).calls + PhotoOf(update, env).calls;
    if photo.Failed? {
      outcome := Raised(MessagePhotoUnavailable);
      return;
    }
    var photoBytes := photo.value;

    var messageContent := Content(msg);
    var analysisText := AnalysisText(userName, userId, messageContent);
    assert analysisText == AnalysisOf(update);
    if messageContent == "" && photoBytes == [] {
      return;
    }
    assert ReachesClassifier(update, env);

    var parts, classification := ClassifyContent(env.generateContent, decode, analysisText, photoBytes, profilePhotoBytes);
    assert parts == RequestOf(update, env);
    trace := trace + [GenerateContent(parts)];
    var category := NormalisedCategory(classification);
    assert category == VerdictOf(update, env, decode);
    if category.Raises? {
      outcome := Raised(category.error);
      return;
    }

    var actions := Act(env, chatId, msg.messageId, userId, category.name);
    trace := trace + actions;
  }
}
