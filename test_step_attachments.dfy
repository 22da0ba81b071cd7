/**
 * Attachment messages of one test step
 * (src/reporter/cucumber/messagesBuilder/TestStepAttachments.ts).
 *
 * The class there only holds three read-only fields, so it is a datatype
 * here. Every native attachment of the step becomes one protocol
 * `attachment` message, in order, with its payload re-encoded as Base64.
 */
module TestStepAttachments {
  import opened Wrappers
  import Base64

  type byte = Base64.byte

  /**
   * A native attachment captured during a step. Its payload is a file
   * (`path`) or an in-memory buffer (`body`).
   */
  datatype PwAttachment = PwAttachment(
    name: string,
    contentType: string,
    path: Option<string>,
    body: Option<seq<byte>>)

  /** A native test step of the runner; only its identity matters here. */
  datatype PwStep = PwStep(title: string, index: nat)

  /** Finds the attachments captured during a native step, in capture order. */
  datatype AttachmentMapper = AttachmentMapper(getStepAttachments: PwStep -> seq<PwAttachment>)

  datatype TestCaseRun = TestCaseRun(id: string, attachmentMapper: AttachmentMapper)

  /** The protocol test step the attachments belong to. */
  datatype TestStep = TestStep(id: string)

  datatype AttachmentContentEncoding = IDENTITY | BASE64

  /** The protocol `attachment` message. */
  datatype Attachment = Attachment(
    testCaseStartedId: string,
    testStepId: string,
    body: string,
    contentEncoding: AttachmentContentEncoding,
    mediaType: string,
    fileName: string)

  /** The envelope `{ attachment }` that carries one message. */
  datatype Envelope = Envelope(attachment: Attachment)

  /** The file system as seen by a whole-file read: path to contents. */
  type ReadFile = string -> seq<byte>

  /** `pwAttachment.path` is truthy: present and not the empty string. */
  predicate HasPath(a: PwAttachment)
  {
    a.path.Some? && a.path.value != ""
  }

  /**
   * The non-null assertion `body!` is only safe when there is no usable
   * path or there is a body.
   */
  predicate HasPayload(a: PwAttachment)
  {
    HasPath(a) || a.body.Some?
  }

  /** The bytes the attachment stands for: the file if it has a path, else the buffer. */
  function Payload(a: PwAttachment, readFile: ReadFile): seq<byte>
    requires HasPayload(a)
  {
    if HasPath(a) then readFile(a.path.value) else a.body.value
  }

  datatype TestStepAttachments = TestStepAttachments(
    testCaseRun: TestCaseRun,
    testStep: TestStep,
    pwStep: Option<PwStep>)
  {
    /** The native attachments of the step, none if there is no native step. */
    function StepAttachments(): seq<PwAttachment>
    {
      match pwStep
      case None => []
      case Some(step) => testCaseRun.attachmentMapper.getStepAttachments(step)
    }

    /** Every native attachment of the step has a path or a body. */
    predicate AttachmentsHavePayload()
    {
      forall i :: 0 <= i < |StepAttachments()| ==> HasPayload(StepAttachments()[i])
    }

    /**
     * The Base64 body of one attachment. A truthy path wins over a body;
     * the result decodes back to exactly the payload bytes.
     */
    function GetAttachmentBodyBase64(a: PwAttachment, readFile: ReadFile): (r: string)
      requires HasPayload(a)
      ensures HasPath(a) ==> Base64.Decode(r) == Some(readFile(a.path.value))
      ensures !HasPath(a) ==> Base64.Decode(r) == Some(a.body.value)
      ensures |r| == 4 * ((|Payload(a, readFile)| + 2) / 3)
    {
      var bytes := Payload(a, readFile);
      Base64.DecodeEncode(bytes);
      Base64.EncodeLength(bytes);
      Base64.Encode(bytes)
    }

    function BuildAttachmentMessage(a: PwAttachment, readFile: ReadFile): (r: Envelope)
      requires HasPayload(a)
      ensures r.attachment.testCaseStartedId == testCaseRun.id
      ensures r.attachment.testStepId == testStep.id
      ensures r.attachment.contentEncoding == BASE64
      ensures r.attachment.mediaType == a.contentType
      ensures r.attachment.fileName == a.name
      ensures Base64.Decode(r.attachment.body) == Some(Payload(a, readFile))
    {
      Envelope(Attachment(
        testCaseStartedId := testCaseRun.id,
        testStepId := testStep.id,
        body := GetAttachmentBodyBase64(a, readFile),
        contentEncoding := BASE64,
        mediaType := a.contentType,
        fileName := a.name))
    }

    /** One message per native attachment, in the same order. */
    function BuildMessages(readFile: ReadFile): (r: seq<Envelope>)
      requires AttachmentsHavePayload()
      ensures pwStep.None? ==> r == []
      ensures |r| == |StepAttachments()|
      ensures forall i :: 0 <= i < |r| ==> r[i] == BuildAttachmentMessage(StepAttachments()[i], readFile)
    {
      if pwStep.None? then []
      else
        var attachments := StepAttachments();
        seq(|attachments|, i requires 0 <= i < |attachments| && HasPayload(attachments[i]) =>
          BuildAttachmentMessage(attachments[i], readFile))
    }
  }

  /**
   * Every message of a step is bound to the owning test case run and test
   * step, is tagged BASE64 and decodes to the payload of the attachment at
   * the same position.
   */
  lemma MessagesMatchAttachments(t: TestStepAttachments, readFile: ReadFile, i: nat)
    requires t.AttachmentsHavePayload()
    requires i < |t.StepAttachments()|
    ensures var m := t.BuildMessages(readFile)[i].attachment;
      && m.testCaseStartedId == t.testCaseRun.id
      && m.testStepId == t.testStep.id
      && m.contentEncoding == BASE64
      && m.mediaType == t.StepAttachments()[i].contentType
      && m.fileName == t.StepAttachments()[i].name
      && Base64.Decode(m.body) == Some(Payload(t.StepAttachments()[i], readFile))
  {
  }
}
