/**
 * internal/core/attachment.go: the upload size check, the list of already-compressed MIME types
 * and the lookups of stored attachments. Reading the upload and hashing it with SHA-256 are
 * outside the model: the bytes read (or the failure to read) and the hex digest are inputs.
 */
module Attachments {
  import opened Wrappers
  import opened Core
  import opened Strings

  datatype AttachmentStore = AttachmentStore(maxSize: int)

  /** The multipart header fields that `Store` uses. */
  datatype FileHeader = FileHeader(filename: string, size: int, contentType: string)

  const DefaultMaxSize: int := 10 * 1024 * 1024

  function NewAttachmentStore(): (s: AttachmentStore)
    ensures s.maxSize == 10485760
  {
    AttachmentStore(DefaultMaxSize)
  }

  /**
   * Builds the attachment for an upload: refused when the declared size exceeds the store's
   * limit or the body cannot be read; otherwise identified by the hex SHA-256 of its bytes.
   */
  function Store(s: AttachmentStore, header: FileHeader, body: Option<seq<Byte>>,
                 sha256Hex: seq<Byte> -> string, userId: string, now: int): (r: Result<Attachment, Error>)
    ensures header.size > s.maxSize ==> r == Err(FileTooLarge(header.size, s.maxSize))
    ensures header.size <= s.maxSize && body == None ==> r == Err(ReadFailed)
    ensures r.Ok? <==> header.size <= s.maxSize && body.Some?
    ensures r.Ok? ==> r.value.id == sha256Hex(body.value) && r.value.hash == r.value.id
    ensures r.Ok? ==> r.value.data == body.value && r.value.size == header.size
    ensures r.Ok? ==> r.value.name == header.filename && r.value.mimeType == header.contentType
    ensures r.Ok? ==> r.value.uploadedBy == userId && r.value.uploadedAt == now
  {
    if header.size > s.maxSize then Err(FileTooLarge(header.size, s.maxSize))
    else if body == None then Err(ReadFailed)
    else
      var hash := sha256Hex(body.value);
      Ok(Attachment(hash, header.filename, header.contentType, header.size, hash, body.value, userId, now))
  }

  /** The MIME types whose content is already compressed. */
  const CompressedTypes: set<string> := {
    "image/jpeg", "image/png", "image/gif", "image/webp", "video/mp4", "video/mpeg",
    "audio/mpeg", "audio/mp4", "application/zip", "application/x-gzip",
    "application/x-rar-compressed", "application/x-7z-compressed"
  }

  /** Whether compressing a file of this type is worthwhile: every type not in the list. */
  function IsCompressibleType(mimeType: string): (r: bool)
    ensures r <==> mimeType !in CompressedTypes
  {
    !(mimeType == "image/jpeg" || mimeType == "image/png" || mimeType == "image/gif"
      || mimeType == "image/webp" || mimeType == "video/mp4" || mimeType == "video/mpeg"
      || mimeType == "audio/mpeg" || mimeType == "audio/mp4" || mimeType == "application/zip"
      || mimeType == "application/x-gzip" || mimeType == "application/x-rar-compressed"
      || mimeType == "application/x-7z-compressed")
  }

  /** The node's attachment with that ID, or an error. */
  method GetAttachment(n: Node, attachmentId: string) returns (r: Result<Attachment, Error>)
    ensures attachmentId in n.attachments ==> r == Ok(n.attachments[attachmentId])
    ensures attachmentId !in n.attachments ==> r == Err(AttachmentNotFound(attachmentId))
  {
    if attachmentId in n.attachments {
      return Ok(n.attachments[attachmentId]);
    }
    return Err(AttachmentNotFound(attachmentId));
  }

  /**
   * The first attachment with that ID on entry `entryIndex` of an event. An unknown event, an
   * index outside the entries and a missing attachment are three different errors.
   */
  method GetEntryAttachment(n: Node, eventId: string, entryIndex: int, attachmentId: string)
    returns (r: Result<Attachment, Error>)
    ensures eventId !in n.events ==> r == Err(EventNotFound(eventId))
    ensures eventId in n.events && !(0 <= entryIndex < |n.events[eventId].entries|) ==>
      r == Err(InvalidEntryIndex(entryIndex))
    ensures r.Ok? ==>
      && eventId in n.events && 0 <= entryIndex < |n.events[eventId].entries|
      && var list := n.events[eventId].entries[entryIndex].attachments;
         exists i :: 0 <= i < |list| && list[i] == r.value && r.value.id == attachmentId &&
           forall k :: 0 <= k < i ==> list[k].id != attachmentId
    ensures r == Err(AttachmentNotFound(attachmentId)) <==>
      eventId in n.events && 0 <= entryIndex < |n.events[eventId].entries| &&
      forall a :: a in n.events[eventId].entries[entryIndex].attachments ==> a.id != attachmentId
  {
    if eventId !in n.events {
      return Err(EventNotFound(eventId));
    }
    var event := n.events[eventId];
    if entryIndex < 0 || entryIndex >= |event.entries| {
      return Err(InvalidEntryIndex(entryIndex));
    }
    var list := event.entries[entryIndex].attachments;
    var i := 0;
    while i < |list|
      invariant 0 <= i <= |list|
      invariant forall k :: 0 <= k < i ==> list[k].id != attachmentId
    {
      if list[i].id == attachmentId {
        return Ok(list[i]);
      }
      i := i + 1;
    }
    return Err(AttachmentNotFound(attachmentId));
  }
}
