/** Messages of the protocol as the bytes they are on the wire (src/protocol.rs), written out. */
module Examples {
  import opened Base
  import opened Messages
  import opened Encoding
  import opened Replies
  import opened Frames
  import opened EndToEnd

  lemma Numbers()
    ensures BigEndian(1, 2) == [0, 1] && BigEndian(1, 4) == [0, 0, 0, 1] && BigEndian(2, 4) == [0, 0, 0, 2]
  {
  }

  lemma OneSecond()
    ensures BigEndian(1_000_000_000, 8) == [0, 0, 0, 0, 0x3B, 0x9A, 0xCA, 0]
  {
    assert BigEndian(1_000_000_000, 5) == [0, 0x3B, 0x9A, 0xCA, 0];
  }

  // ---------------------------------------------------------------- requests

  /** "/" with the one variable "k=v". */
  const CONTEXT: ClientContext := ClientContext([0x2F], [Entry([0x6B], [0x76])])

  const CONTEXT_BYTES: seq<byte> := [0, 0, 0, 1, 0x2F, 0, 0, 0, 1, 0, 0, 0, 1, 0x6B, 0, 0, 0, 1, 0x76]

  lemma FieldOfOne(b: byte)
    ensures Field([b]) == [0, 0, 0, 1, b]
  {
    hide BigEndian;
    Numbers();
  }

  lemma ContextExample()
    ensures ContextBytes(CONTEXT) == CONTEXT_BYTES
  {
    hide BigEndian;
    hide Field;
    ConcatOfOne(EntryBytes, CONTEXT.environment[0]);
    FieldOfOne(0x2F);
    FieldOfOne(0x6B);
    FieldOfOne(0x76);
    Numbers();
  }

  /** An exec of "x" for the account "a" with a timeout of one second. */
  lemma ExecExample()
    ensures var r := Exec(Account(Some([0x61])), 1_000_000_000, [[0x78]], CONTEXT, [3, 4, 5]);
            && RequestKind(r) == 3 && RequestDescriptors(r) == [3, 4, 5]
            && RequestBytes(r) == [1, 0, 0, 0, 1, 0x61] + [0, 0, 0, 0, 0x3B, 0x9A, 0xCA, 0]
                                  + [0, 1, 0, 0, 0, 1, 0x78] + CONTEXT_BYTES
  {
    hide BigEndian;
    hide Field;
    hide ContextBytes;
    ContextExample();
    var argument: seq<byte> := [0x78];
    ConcatOfOne(Field, argument);
    FieldOfOne(0x61);
    FieldOfOne(0x78);
    Numbers();
    OneSecond();
  }

  /** A warned start with the executable "o" and no account, and a status request. */
  lemma StartExample()
    ensures var r := Start(true, Account(None), [0x6F], CONTEXT);
            && RequestKind(r) == 1 && RequestDescriptors(r) == []
            && RequestBytes(r) == [1, 0, 0, 0, 0, 1, 0x6F] + CONTEXT_BYTES
    ensures RequestBytes(Start(false, Account(None), [0x6F], CONTEXT)) == [0, 0, 0, 0, 0, 1, 0x6F] + CONTEXT_BYTES
    ensures RequestKind(Status(Account(None))) == 2 && RequestBytes(Status(Account(None))) == [0]
  {
    hide Field;
    hide ContextBytes;
    ContextExample();
    FieldOfOne(0x6F);
  }

  // ---------------------------------------------------------------- frames

  /** A frame on the wire: its kind, three zero bytes, its length and its payload. */
  lemma FrameExample(kind: byte, b: byte, c: byte)
    ensures Values(Laid(Frame(kind, [b, c], []))) == [kind, 0, 0, 0, 0, 0, 0, 2, b, c]
  {
    hide Laid;
    hide BigEndian;
    LaidValues(Frame(kind, [b, c], []));
    Numbers();
  }

  lemma ResponseExamples(json: seq<byte>)
    ensures ResponseFrame(Accepted) == Frame(0x80, [], []) && ResponseFrame(NeedWarning) == Frame(0x81, [], [])
    ensures ResponseFrame(StatusReport(json)) == Frame(0x82, json, [])
    ensures ResponseFrame(Completed(1, Timeout)) == Frame(0x83, [0, 0, 0, 1, 1], [])
    ensures ResponseFrame(Completed(1, NoDiagnostic)) == Frame(0x83, [0, 0, 0, 1, 0], [])
    ensures ResponseFrame(Completed(1, Internal)) == Frame(0x83, [0, 0, 0, 1, 2], [])
    ensures forall code :: ResponseFrame(Error(code)).kind == 0x84
    ensures ResponseFrame(Error(Operational)).payload == [1]
    ensures ResponseFrame(Error(AuthorizationRequired)).payload == [2]
    ensures ResponseFrame(Error(AuthorizationFailed)).payload == [3]
    ensures ResponseFrame(Error(OpPathMismatch)).payload == [4]
    ensures ResponseFrame(Error(ProcessStart)).payload == [5]
    ensures ResponseFrame(Error(Protocol)).payload == [6]
    ensures ResponseFrame(Error(QueueFull)).payload == [7]
    ensures ResponseFrame(Error(ErrorCode.Cancelled)).payload == [8]
  {
    hide BigEndian;
    Numbers();
  }

  lemma EventExamples()
    ensures EventFrame(StreamsClosed) == Ok(Frame(4, [], []))
    ensures EventFrame(Cancel(2)) == Ok(Frame(5, [0, 0, 0, 2], []))
  {
    hide BigEndian;
    Numbers();
  }

  /** "OPP", a zero byte and the version. */
  lemma PreambleExample()
    ensures NormalPreamble(VERSION) == [0x4F, 0x50, 0x50, 0, 0, 0, 0, 1]
  {
    hide BigEndian;
    Numbers();
  }
}
