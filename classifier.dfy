/**
  The classifier adapter (`classify_content`): the ordered content list sent to the
  generative model, the cleaning of its reply, and the rule that every failure
  on the way becomes the category ERROR. The remote call and the JSON parser
  are not modelled: the call is a function argument that returns a reply or
  fails, and the parser is a function argument into a small datatype.
*/
module Classifier {
  import opened Wrappers
  import opened Strings

  newtype Byte = x: int | 0 <= x < 256
  type Bytes = seq<Byte>

  /** One entry of the content list handed to the model. */
  datatype Part =
    | Instructions                       // the fixed moderation prompt; its wording is opaque
    | Text(text: string)
    | Image(data: Bytes, mimeType: string)

  const Jpeg := "image/jpeg"

  /** The label placed right before the sender's profile picture. */
  const ProfileSeparator := "\n--- User's Profile Picture ---"

  /** What the remote call gives back: an exception, or a response whose text may be missing. */
  datatype ModelReply = CallFailed | Reply(text: Option<string>)

  /** The value of the "category" key of a decoded JSON object. */
  datatype CategoryEntry = NoCategory | CategoryString(name: string) | CategoryOther

  /** A decoded JSON document, reduced to what the handler reads from it. */
  datatype JsonValue = Object(category: CategoryEntry) | NotObject

  /** The outcome of `json.loads`: a parse error or a value. */
  datatype Decoded = Malformed | Parsed(value: JsonValue)

  const ErrorCategory := "ERROR"

  /** The dictionary returned when anything in the classifier fails. */
  const ErrorResult := Object(CategoryString(ErrorCategory))

  /**
    The content list: the instructions, then the analysis text when it is not
    empty, then the message photo when there is one, then the separator label
    followed by the profile photo when there is one.
  */
  function RequestParts(text: string, photo: Bytes, profile: Bytes): seq<Part> {
    [Instructions]
    + (if text != "" then [Text(text)] else [])
    + (if photo != [] then [Image(photo, Jpeg)] else [])
    + (if profile != [] then [Text(ProfileSeparator), Image(profile, Jpeg)] else [])
  }

  /** The number of entries each optional input contributes. */
  function Present(b: bool, n: nat): nat { if b then n else 0 }

  /** What the content list holds, entry by entry, and that it holds nothing else. */
  lemma RequestPartsShape(text: string, photo: Bytes, profile: Bytes)
    ensures var r := RequestParts(text, photo, profile);
      && |r| == 1 + Present(text != "", 1) + Present(photo != [], 1) + Present(profile != [], 2)
      && r[0] == Instructions
      && (text != "" ==> r[1] == Text(text))
      && (photo != [] ==> r[1 + Present(text != "", 1)] == Image(photo, Jpeg))
      && (profile != [] ==> r[|r| - 2] == Text(ProfileSeparator) && r[|r| - 1] == Image(profile, Jpeg))
      && (forall i :: 1 <= i < |r| ==> r[i] != Instructions)
      && (forall i :: 0 <= i < |r| ==>
            r[i] in {Instructions, Text(text), Image(photo, Jpeg), Text(ProfileSeparator), Image(profile, Jpeg)})
  {
  }

  /** The reply text with surrounding whitespace and every markdown fence removed. */
  function CleanReply(t: string): string {
    Strip(RemoveAll(RemoveAll(Strip(t), "```json"), Fence))
  }

  /** A cleaned reply has no fence of either kind left and no surrounding whitespace. */
  lemma CleanReplyHasNoFence(t: string)
    ensures !Contains(CleanReply(t), Fence)
    ensures !Contains(CleanReply(t), "```json")
    ensures IsStripped(CleanReply(t))
  {
    var inner := RemoveAll(RemoveAll(Strip(t), "```json"), Fence);
    NoFenceAfterRemoval(RemoveAll(Strip(t), "```json"));
    var i, j := StripBounds(inner);
    AbsentInSlice(inner, Fence, i, j);
    AbsentPrefixPattern(CleanReply(t), Fence, "```json");
  }

  /** A reply with no fence of either kind and no surrounding whitespace is left as it is. */
  lemma CleanReplyFixed(c: string)
    requires !Contains(c, Fence) && !Contains(c, "```json") && IsStripped(c)
    ensures CleanReply(c) == c
  {
    StripUnchanged(c);
    RemoveAbsent(c, "```json");
    RemoveAbsent(c, Fence);
  }

  /** Cleaning an already cleaned reply changes nothing. */
  lemma CleanReplyIdempotent(t: string)
    ensures CleanReply(CleanReply(t)) == CleanReply(t)
  {
    CleanReplyHasNoFence(t);
    CleanReplyFixed(CleanReply(t));
  }

  /** A reply with no backtick and no surrounding whitespace reaches the parser as it is. */
  lemma CleanReplyUnchanged(t: string)
    requires '`' !in t && IsStripped(t)
    ensures CleanReply(t) == t
  {
    AbsentFirstChar(t, "```json");
    AbsentFirstChar(t, Fence);
    CleanReplyFixed(t);
  }

  /** A reply wrapped in a json code fence reaches the parser as the stripped body. */
  lemma CleanFencedReply(body: string)
    requires '`' !in body
    ensures CleanReply("```json" + body + Fence) == Strip(body)
  {
    var t := "```json" + body + Fence;
    assert t[0] == '`' && t[|t| - 1] == '`';
    StripUnchanged(t);
    assert RemoveAll(t, "```json") == RemoveAll(body + Fence, "```json") by {
      assert t[..7] == "```json" && t[7..] == body + Fence;
    }
    RemoveAfterFreePrefix(body, Fence, "```json");
    assert RemoveAll(Fence, "```json") == Fence;
    RemoveAfterFreePrefix(body, Fence, Fence);
    assert RemoveAll(Fence, Fence) == [] by {
      assert Fence[..3] == Fence && Fence[3..] == [];
    }
    assert body + [] == body;
  }

  /**
    What the classifier returns for a reply: the decoded value of the cleaned
    reply text, or the ERROR dictionary when the call failed, the response had
    no text, or the text did not parse.
  */
  function Interpret(reply: ModelReply, decode: string -> Decoded): JsonValue {
    match reply
    case CallFailed => ErrorResult
    case Reply(None) => ErrorResult
    case Reply(Some(t)) =>
      match decode(CleanReply(t))
      case Malformed => ErrorResult
      case Parsed(v) => v
  }

  /**
    The classifier never invents a value: it returns the ERROR dictionary exactly
    when one of the three failures happened or the model itself answered with
    that dictionary; any other result is what the parser made of the cleaned reply.
  */
  lemma InterpretIsDecodedOrError(reply: ModelReply, decode: string -> Decoded)
    ensures var failed := reply.CallFailed? || reply.text.None? || decode(CleanReply(reply.text.value)).Malformed?;
      && (Interpret(reply, decode) == ErrorResult <==>
            failed || decode(CleanReply(reply.text.value)) == Parsed(ErrorResult))
      && (Interpret(reply, decode) != ErrorResult ==>
            reply.Reply? && reply.text.Some? && decode(CleanReply(reply.text.value)) == Parsed(Interpret(reply, decode)))
  {
  }

  /**
    The parser sees the reply only through its cleaning: a reply wrapped as a json
    code fence is interpreted exactly as its stripped body sent bare.
  */
  lemma FencedReplyReadAsBody(body: string, decode: string -> Decoded)
    requires '`' !in body
    ensures Interpret(Reply(Some("```json" + body + Fence)), decode) == Interpret(Reply(Some(Strip(body))), decode)
  {
    CleanFencedReply(body);
    var i, j := StripBounds(body);
    assert '`' !in Strip(body) by {
      assert forall k :: 0 <= k < j - i ==> Strip(body)[k] == body[i + k] && body[i + k] in body;
    }
    CleanReplyUnchanged(Strip(body));
  }

  /**
    `classify_content`: builds the content list entry by entry, calls the model
    and decodes the cleaned reply. Returns the list sent and the value obtained.
  */
  method ClassifyContent(generate: seq<Part> -> ModelReply, decode: string -> Decoded,
                         messageText: string, photoBytes: Bytes, profilePhotoBytes: Bytes)
    returns (parts: seq<Part>, classification: JsonValue)
    ensures parts == RequestParts(messageText, photoBytes, profilePhotoBytes)
    ensures classification == Interpret(generate(parts), decode)
  {
    parts := [Instructions];
    if messageText != "" {
      parts := parts + [Text(messageText)];
    }
    if photoBytes != [] {
      parts := parts + [Image(photoBytes, Jpeg)];
    }
    if profilePhotoBytes != [] {
      parts := parts + [Text(ProfileSeparator)];
      parts := parts + [Image(profilePhotoBytes, Jpeg)];
    }
    var response := generate(parts);
    if response.CallFailed? || response.text.None? {
      classification := ErrorResult;
      return;
    }
    var cleaned := CleanReply(response.text.value);
    var decoded := decode(cleaned);
    if decoded.Malformed? {
      classification := ErrorResult;
    } else {
      classification := decoded.value;
    }
  }
}
