/** What the handlers share: errors, the transaction hash, the screens, and src/common/util.c. */
module Device {
  import opened Bytes
  import Base58

  /** responseCodes.h */
  datatype Error =
    | NoApduReceived | RejectedByUser | InvalidCla | InvalidState | InvalidPath | InvalidParam
    | InvalidTransaction | UnsupportedCbor | BufferOverflow | FailedCxOperation | InvalidInstruction | DeviceLocked

  /** The result of code that may THROW. */
  datatype Outcome<+T> = Ok(value: T) | Throw(error: Error) {
    predicate IsFailure() {
      Throw?
    }

    function PropagateFailure<U>(): (r: Outcome<U>)
      requires Throw?
    {
      Throw(error)
    }

    function Extract(): (r: T)
      requires Ok?
    {
      value
    }
  }

  /** What a press on the step that ends a flow does: Proceed only replies to the host, Ask is the pair
      of steps that sign and decline, and the others run the function of that name. */
  datatype Callback =
    | Proceed | Ask | ProcessKeyIndices | ProcessThreshold | HandleDescriptionPart | ProcessNextScheduledAmount

  /** How a handler that does not throw ends: a success reply to the host, or a screen that waits
      for the user (IO_ASYNCH_REPLY). */
  datatype Reply = Success | Await(callback: Callback)

  /** One step of a screen flow; Continue, Sign and Decline are the steps with a callback. */
  datatype Step =
    | Show(title: string, text: string)
    | Continue(title: string, text: string)
    | Sign
    | Decline

  type Flow = seq<Step>

  const REVIEW := Show("Review", "transaction")
  const PROCEED := Continue("Continue", "with transaction")

  /** The memory behind cdata: 255 bytes of APDU data and the nine bytes after them, which are the
      furthest that a wrapped length makes the memo handler read. */
  type Cdata = s: bytes | |s| == 264 witness seq(264, i => 0)

  const MAX_CDATA_LENGTH := 255

  datatype Packet = Packet(p1: byte, p2: byte, data: Cdata, length: byte)

  /** What moves a handler on: a packet from the host, or a press on a step whose callback does more than
      reply. */
  datatype Event = Host(packet: Packet) | Confirm

  const ACCOUNT_TRANSACTION_HEADER_LENGTH := 60
  const UPDATE_HEADER_LENGTH := 28

  /** A byte string as characters. */
  function Chars(b: bytes): (r: string)
    ensures |r| == |b|
  {
    seq(|b|, i requires 0 <= i < |b| => b[i] as char)
  }

  lemma CharsInjective(a: bytes, b: bytes)
    requires Chars(a) == Chars(b)
    ensures a == b
  {
    forall i | 0 <= i < |a|
      ensures a[i] == b[i]
    {
      assert Chars(a)[i] == Chars(b)[i];
    }
  }

  ghost function AddressChars(sha: Sha256, address: bytes): (r: string)
    requires |address| == 32
    ensures |r| == 55
  {
    Chars(Base58.AddressTextOf(sha, address))
  }

  lemma AddressCharsInjective(sha: Sha256, a: bytes, b: bytes)
    requires |a| == |b| == 32 && AddressChars(sha, a) == AddressChars(sha, b)
    ensures a == b
  {
    CharsInjective(Base58.AddressTextOf(sha, a), Base58.AddressTextOf(sha, b));
    Base58.AddressTextInjective(sha, a, b);
  }

  // ------------------------------------------------------------------ packets that start a transaction

  /** Bytes taken by the key derivation path at the start of a packet; longer paths are refused. */
  function PathLength(data: Cdata): (r: Outcome<nat>)
    ensures r.Ok? ==> r.value <= 33
  {
    if data[0] > 8 then Throw(InvalidPath) else Ok(1 + 4 * data[0])
  }

  /** The header and kind that follow the path: what is hashed, and the sender in an account header. */
  function HeaderAt(data: Cdata, headerLength: nat, kind: byte): (r: Outcome<bytes>)
    requires headerLength <= 60
    ensures r.Ok? ==> |r.value| == headerLength + 1 && r.value[headerLength] == kind && PathLength(data).Ok?
  {
    var at :- PathLength(data);
    if data[at + headerLength] != kind then Throw(InvalidTransaction)
    else Ok(data[at..at + headerLength + 1])
  }

  /** A packet whose data starts with the given bytes. */
  function Pad(b: bytes): (r: Cdata)
    requires |b| <= 255
    ensures r[..|b|] == b
  {
    b + seq(264 - |b|, i => 0)
  }

  lemma ReadPut2(b: bytes, n: u16)
    requires |b| <= 253
    ensures U2BE(Pad(b + Put2(n)), |b|) == n && Pad(b + Put2(n))[..|b|] == b
  {
    var data := Pad(b + Put2(n));
    assert data[..|b| + 2] == b + Put2(n);
    assert data[|b|] == (b + Put2(n))[|b|] == n / 0x100;
    assert data[|b| + 1] == (b + Put2(n))[|b| + 1] == n % 0x100;
    assert data[..|b|] == data[..|b| + 2][..|b|] == b;
  }

  lemma ReadPut4(n: u32)
    ensures U4BE(Pad(Put4(n)), 0) == n
  {
    var data := Pad(Put4(n));
    assert data[..4] == Put4(n);
    assert data[0] == data[..4][0] && data[1] == data[..4][1] && data[2] == data[..4][2] && data[3] == data[..4][3];
  }

  lemma HeaderCases(data: Cdata, headerLength: nat, kind: byte)
    requires headerLength <= 60
    ensures match PathLength(data)
            case Throw(e) => HeaderAt(data, headerLength, kind) == Throw(e)
            case Ok(at) =>
              HeaderAt(data, headerLength, kind)
              == if data[at + headerLength] == kind then Ok(data[at..at + headerLength + 1])
                  else Throw(InvalidTransaction)
  {
  }

  /** Bytes hashed one field after the other. */
  lemma Further(hash: bytes, data: Cdata, i: nat, j: nat)
    requires i <= j <= |data|
    ensures hash + data[..i] + data[i..j] == hash + data[..j]
  {
    assert data[..i] + data[i..j] == data[..j];
  }

  /** The globals that are not tied to one instruction. */
  class Globals {
    const sha: Sha256
    /** What tx_state.hash has absorbed since cx_sha256_init. */
    var hash: bytes
    /** path.keyDerivationPath: the key that will sign. */
    var path: seq<u32>
    /** global_account_sender */
    var sender: string
    /** The flows passed to ux_flow_init since the session started. */
    ghost var shown: seq<Flow>
    /** The flow that is on the display. */
    var display: Flow

    constructor (sha: Sha256)
      ensures this.sha == sha
    {
      this.sha := sha;
      hash, path, sender, shown, display := [], [], "", [], [];
    }

    method InitHash()
      modifies this`hash
      ensures hash == []
    {
      hash := [];
    }

    method UpdateHash(b: bytes)
      modifies this`hash
      ensures hash == old(hash) + b
    {
      hash := hash + b;
    }

    method UxFlowInit(flow: Flow)
      modifies this`shown, this`display
      ensures display == flow && shown == old(shown) + [flow]
    {
      display, shown := flow, shown + [flow];
    }

    /** parseKeyDerivationPath */
    method ParseKeyDerivationPath(cdata: Cdata) returns (r: Outcome<nat>)
      modifies this`path
      ensures r == PathLength(cdata)
      ensures r == if cdata[0] <= 8 then Ok(1 + 4 * cdata[0]) else Throw(InvalidPath)
      ensures r.Ok? ==> |path| == cdata[0] && forall i | 0 <= i < |path| :: path[i] == Hardened(U4BE(cdata, 1 + 4 * i))
    {
      var pathLength := cdata[0];
      if pathLength > 8 {
        return Throw(InvalidPath);
      }
      path := [];
      for i := 0 to pathLength
        invariant |path| == i && forall k | 0 <= k < i :: path[k] == Hardened(U4BE(cdata, 1 + 4 * k))
      {
        var node := U4BE(cdata, 1 + 4 * i);
        path := path + [Hardened(node)];
      }
      return Ok(1 + 4 * pathLength);
    }

    /** hashHeaderAndType, with cdata already advanced by at. */
    method HashHeaderAndType(cdata: Cdata, at: nat, headerLength: nat, validType: byte) returns (r: Outcome<nat>)
      requires at <= 33 && headerLength <= 60
      modifies this`hash
      ensures r == if cdata[at + headerLength] == validType then Ok(headerLength + 1) else Throw(InvalidTransaction)
      ensures r.Ok? ==> hash == old(hash) + cdata[at..at + headerLength + 1]
    {
      UpdateHash(cdata[at..at + headerLength]);
      var kind := cdata[at + headerLength];
      if kind != validType {
        return Throw(InvalidTransaction);
      }
      UpdateHash([kind]);
      assert cdata[at..at + headerLength] + [kind] == cdata[at..at + headerLength + 1];
      return Ok(headerLength + 1);
    }

    /** base58check_encode into a 57-byte display buffer, of which 55 characters are text.  The
        callers' check for a refused encoding never fires. */
    method ShowAddress(address: bytes) returns (text: string)
      requires |address| == 32
      ensures text == AddressChars(sha, address)
    {
      var buffer := new byte[57];
      var throws, rc, _ := Base58.Base58CheckEncode(sha, address, buffer, 57);
      assert !throws && rc == 0;
      text := Chars(buffer[..55]);
    }

    /** hashAccountTransactionHeaderAndKind: also keeps the sender's address for the screens. */
    method HashAccountTransactionHeaderAndKind(cdata: Cdata, at: nat, kind: byte) returns (r: Outcome<nat>)
      requires at <= 33
      modifies this`hash, this`sender
      ensures r == if cdata[at + 60] == kind then Ok(61) else Throw(InvalidTransaction)
      ensures r.Ok? ==> hash == old(hash) + cdata[at..at + 61]
      ensures sender == AddressChars(sha, cdata[at..at + 32])
    {
      sender := ShowAddress(cdata[at..at + 32]);
      r := HashHeaderAndType(cdata, at, ACCOUNT_TRANSACTION_HEADER_LENGTH, kind);
    }

    /** hashUpdateHeaderAndType */
    method HashUpdateHeaderAndType(cdata: Cdata, at: nat, updateType: byte) returns (r: Outcome<nat>)
      requires at <= 33
      modifies this`hash
      ensures r == if cdata[at + 28] == updateType then Ok(29) else Throw(InvalidTransaction)
      ensures r.Ok? ==> hash == old(hash) + cdata[at..at + 29]
    {
      r := HashHeaderAndType(cdata, at, UPDATE_HEADER_LENGTH, updateType);
    }

    /** What every account transaction starts with: the path, a new hash, and header and kind.
        The result is the offset of the header. */
    method StartAccountTransaction(cdata: Cdata, kind: byte) returns (r: Outcome<nat>)
      modifies this`hash, this`path, this`sender
      ensures r == match HeaderAt(cdata, 60, kind) case Throw(e) => Throw(e) case Ok(_) => PathLength(cdata)
      ensures r.Ok? ==> hash == cdata[r.value..r.value + 61] == HeaderAt(cdata, 60, kind).value
      ensures r.Ok? ==> sender == AddressChars(sha, cdata[r.value..r.value + 32])
    {
      hide AddressChars, Hardened, U4BE, HeaderAt, PathLength;
      HeaderCases(cdata, 60, kind);
      var at :- ParseKeyDerivationPath(cdata);
      InitHash();
      assert [] + cdata[at..at + 61] == cdata[at..at + 61];
      var used :- HashAccountTransactionHeaderAndKind(cdata, at, kind);
      r := Ok(at);
    }

    /** The same for update instructions. */
    method StartUpdate(cdata: Cdata, updateType: byte) returns (r: Outcome<nat>)
      modifies this`hash, this`path
      ensures r == match HeaderAt(cdata, 28, updateType) case Throw(e) => Throw(e) case Ok(_) => PathLength(cdata)
      ensures r.Ok? ==> hash == cdata[r.value..r.value + 29] == HeaderAt(cdata, 28, updateType).value
    {
      hide Hardened, U4BE, HeaderAt, PathLength;
      HeaderCases(cdata, 28, updateType);
      var at :- ParseKeyDerivationPath(cdata);
      InitHash();
      assert [] + cdata[at..at + 29] == cdata[at..at + 29];
      var used :- HashUpdateHeaderAndType(cdata, at, updateType);
      r := Ok(at);
    }

    /** handleHeaderAndToAddress: path, header, kind and recipient.  The result is the offset of what
        follows the recipient. */
    method HandleHeaderAndToAddress(cdata: Cdata, kind: byte) returns (r: Outcome<nat>, recipient: string)
      modifies this`hash, this`path, this`sender
      ensures r == match HeaderAt(cdata, 60, kind)
                   case Throw(e) => Throw(e)
                   case Ok(_) => Ok(PathLength(cdata).value + 93)
      ensures r.Ok? ==> hash == cdata[r.value - 93..r.value]
      ensures r.Ok? ==> sender == AddressChars(sha, cdata[r.value - 93..r.value - 61])
      ensures r.Ok? ==> recipient == AddressChars(sha, cdata[r.value - 32..r.value])
    {
      hide AddressChars;
      recipient := "";
      var start :- StartAccountTransaction(cdata, kind);
      var at := start + 61;
      var toAddress := cdata[at..at + 32];
      UpdateHash(toAddress);
      assert cdata[start..at] + cdata[at..at + 32] == cdata[start..at + 32];
      recipient := ShowAddress(toAddress);
      r := Ok(at + 32);
    }
  }

  /** Pieces of a packet that starts with header, kind and recipient. */
  lemma StartSlices(data: Cdata, start: nat, more: nat)
    requires start + 93 + more <= 264
    ensures data[start..start + 93] + data[start + 93..start + 93 + more] == data[start..start + 93 + more]
    ensures data[start..start + 61][..32] == data[start..start + 32]
    ensures data[start..start + 93] == data[start..start + 61] + data[start + 61..start + 93]
  {
  }

  /** Every node of a path is hardened: node | 0x80000000. */
  function Hardened(node: u32): (r: u32)
    ensures r >= 0x8000_0000 && (r == node || r == node + 0x8000_0000)
  {
    if node >= 0x8000_0000 then node else node + 0x8000_0000
  }
}
