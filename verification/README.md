# Verification model of the Concordium Ledger apps

The firmware receives a transaction in small APDU packets, hashes the bytes, shows the decoded fields
on a screen of two lines and signs the hash when the user agrees.  This project models the code that
decides what is hashed, what is shown and when the question to sign appears.  It proves which byte
strings can be signed, what the screens say about them, and exactly where the two part.

**Arithmetic and texts.** The in-place base-256 to base-58 conversion, the conversion of seconds to a
Gregorian date, decimal amounts with separators and trimmed fractions, and paginated hexadecimal text
are methods over arrays with the loops of the source.  Each is proved against a mathematical function
(`Positional.Value`, the day-by-day calendar of `Calendar`, `DecimalText.Fixed`,
`PaginatedHex.PagedHex`), and for each function there is an inverse and a round trip.

**Signing protocols.** Update-credentials, transfers and scheduled transfers with and without a CBOR memo,
configure-baker, and in the governance app the level 2 key update, add-identity-provider and create-PLT
are each modelled three times:

* a *transaction* and its serialization, independent of packets;
* an *acceptor* (`Progress`, `Accept`, `Take`): what may come next after a part has been received, what
  has been hashed (`Transcript`) and what has been shown (`Rendered`);
* a *class* with the fields of the C context, whose methods are the C functions.  A ghost field holds the
  acceptor's state, `Valid()` ties counters, hash, buffers and screens to it, and every handler is proved to
  accept exactly what the acceptor accepts, with the same error otherwise (`Handled`, `Taken`).  Configure-baker
  does not always start afresh, so its handler is described in any memory (`ConfigureBakerMemory.Effect`), and
  the acceptor as what sessions do that their first packet starts anew (`ConfigureBakerSessions`).

The main results speak about whole runs.  For each of these protocols: *a byte string can be brought to the
sign screen if and only if it is the serialization of a well-formed transaction* (the lemmas named
`SignedStrings`), and that serialization can be read in one way only, except where an integer memo is not as
long as declared (`ScheduleComplete.StringsOnce`, `SecondReading`).  For configure-baker this holds of the
sessions that begin with an initial packet announcing a field, and of no others
(`ConfigureBakerSessions.SignedExactly`).  The lemmas named `ShownDetermines` say, as an
if-and-only-if, what two transactions with the same screens have in common.

Two further statements about each protocol do not mention the functions that its handler and its acceptor
share.  `SignedFormat` describes the strings that can be signed by positions and base-256 numbers alone (for
transfers `SignedStrings` does).  `SignedShows` reads the texts on the screens back, with the readers of `Readback`, and finds the signed bytes
at their positions: addresses with their checksum, amounts, rates and counts as base-256 values, times counted
in the calendar, one step for each bit of the bitmap of configure-baker.  `Waiting` says that every flow on
the display is waited for, and for what.

**Screens.** A step prints a C string: the bytes of its buffer up to the first zero (`Screens.CText`).
The memo buffer (255 bytes, with the memory that a copy into it can reach), the URL buffer of
configure-baker and the description buffer of add-identity-provider are arrays that keep what they held
before a session, so that texts without a terminator show what is left behind them, or what lies behind the
buffer: `majorType` for memos, any memory for descriptions.

**The command loop.** `MainHelpers.History` says what `concordium_main` does with any list of commands and
presses, for any set of handlers, and `EverySession` that each signature is over the bytes of one session of
one instruction, behind what the first of its events has kept of the hash.  `LoopCompletes.SessionGoes` is the
converse: whatever a handler accepts can be sent and pressed, from any point of any history, up to the
signature.  So a string is signed for an instruction in some history *if and only if* it is well-formed for it
(`GovernanceSigned.SignedExactly`, `WalletSigned.SignedExactly`, `BakerSignedExactly`).  `GovernanceMain` and
`WalletMain` run the loop on the handlers of this model, whose contexts share the running hash and the memo
buffer and are never cleared.  Their `Loop` is proved to
produce exactly that history; that a session starts with an empty hash follows from what the handlers do on
an initial call.  A session of configure-baker finds what its last session has left in memory, or any memory
when another instruction, an error of the handler or a signature came between.  Instructions outside the model
are handlers that reply, wait, fail or end their session in any way and leave anything in the hash.

SHA-256 is any function from byte strings to 32 bytes; signing stands for what is handed to it.  The
running hash is the byte string absorbed so far.  "Shown" means contained in a flow passed to
`ux_flow_init`.  Host packets and presses alternate as in section 5.1 of ISO/IEC 7816-4:2005.  The data of
a packet is a memory of 264 bytes: the 255 that an APDU can hold and the nine that the memo handler can
be made to read behind them.  Fixed-width fields are subset types, and every subtraction that can wrap is
written with its wrap-around.  Nothing is executed.

Files: `Bytes`, `Lists`, `Positional`, `BigEndian`, `Runs` (common ground); `Base58`, `Calendar`, `Time`, `TimeText`,
`DecimalText`, `NumberHelpers`, `PaginatedHex`, `Displays`, `Screens`, `Readback` (arithmetic and texts); `Device`
(util.c and what the handlers share); `DisplayCbor`, `SignTransfer`, `TransferComplete`, `ScheduleTx`,
`ScheduleRuns`, `ScheduleShown`, `ScheduleComplete`, `SignTransferWithSchedule`, `CredentialTx`,
`CredentialRuns`, `CredentialUnique`, `CredentialFormat`, `SignCredentialDeployment`, `CredentialShown`,
`CredentialScreens`, `ConfigureBakerTx`, `ConfigureBakerRuns`, `ConfigureBakerFormat`, `ConfigureBakerShown`,
`ConfigureBakerSteps`, `ConfigureBakerMemory`, `ConfigureBakerSessions`, `SignConfigureBaker`,
`AuthorizationsTx`, `AuthorizationsRuns`, `AuthorizationsComplete`, `AuthorizationsFormat`,
`AuthorizationsShown`, `SignUpdateAuthorizations`, `IdentityProviderTx`, `IdentityProviderRuns`,
`IdentityProviderComplete`, `IdentityProviderFormat`, `IdentityProviderShown`, `SignAddIdentityProvider`,
`SignCreatePlt`, `PltFormat`, `Waiting` (protocols); `MainHelpers`, `LoopCompletes`, `GovernanceMain`,
`GovernanceSigned`, `WalletMain`, `WalletSigned` (the loop).

## What the code does that one might not expect

* Memos on the screen: a text memo is copied without a terminator, and `concordium_main` does not clear the
  memory between sessions (src/common/mainHelpers.c:83 clears its own copy of the pointer).  The memo step
  shows exactly the text if and only if it holds no zero byte and the byte behind it is zero
  (`DisplayCbor.TextShown`); otherwise the rest of an earlier memo shows behind it (`StaleTail`; five letters
  after a hundred in `HelloAfterAHundred`).  The text for -2^64 loses its terminator to " - 1"
  (`IntegerShown`).
* Memos in memory: the second packet is copied before the length is checked.  It stays inside the buffer if
  and only if the content of the first packet and its own length add up to at most 255 (`SecondPacket`);
  otherwise it is refused afterwards.  Two packets of 255 bytes, declared as 256, copy 508 characters
  (`OverrunningPackets`).
* Memos in the hash: with an empty first packet and a declared length of 256 a memo is accepted of which no
  byte is hashed; otherwise a text memo is exactly as long as declared.  An integer memo is accepted whatever
  the length of its packet, and is as declared only if the packet was (`SignedIntegerMemo`,
  `LongIntegerSigned`).  The signed bytes of a scheduled transfer then do not say where its memo ends
  (`ScheduleComplete.TwoReadings`).
* Update-credentials: the last verification key of each credential is hashed but never shown, so that all keys
  are shown only if there is no credential; replacing such a key changes what is signed and no screen
  (`CredentialShown`).  The comment at src/signCredentialDeployment.c:314 defers it to a final flow that this
  instruction does not have.  A credential that announces no key, or no anonymity revoker, can never be
  completed.
* Create-PLT: a token id is shown up to its first zero byte, so that 41 00 42 and 41 00 43 look the same.
* Configure-baker between sessions: only an initial call with P1 0x00 resets state and hash, and the handler
  still awaits rates when it has asked to sign.  A session that begins with another P1 goes on with what an
  earlier one has left: after bitmap 0x0020, a rate and a refusal, a session that begins with another rate asks
  to sign header, bitmap and both rates, without the review and sender steps (`WalletMain.FeeHistory`,
  `ConfigureBakerSessions.FeeAgain`).  What is signed is the session's own bytes and a transaction exactly
  when its first command has P1 0x00 and a bitmap with one of the low eight bits (`SignedExactly`).  The bitmaps
  256, 512 and 768 reset the hash and keep the state; what follows is never a transaction (`StateKept`,
  `NothingAnnounced`, `NoTransaction`).
* Configure-baker on the screen: a page of the URL that is not the last is copied without a terminator, like a
  memo.  The keys are signed unseen.
* Scheduled transfers: a transfer that announces no release never reaches the sign screen.
* Level 2 key updates: an update that announces no key never gets past its first packet.  The test for too
  many access structures (governance-app/src/signUpdateAuthorizations.c:289-303) never fires.
* Add-identity-provider: an identity provider number of 10000 or more does not fit its five-byte buffer, so
  the device is reset.  Payload and key lengths are counted in 32 bits, so the declared length is exact only
  for payloads below four gigabytes; the final test of the payload length never fails.  A piece of 255 bytes,
  which is what a full packet brings, gets no terminator: it is shown exactly if and only if it holds no zero
  byte and the byte behind the buffer is zero (`IdentityProviderTx.WholeText`, `FullPiece`).
* `toPaginatedHex` counts one space for 16 bytes in its size test where it writes one for eight: the test
  protects a buffer of any size only for up to 8 bytes, and for 16 (`SizeTestProtects`).
* `decimalNumberToDisplay`: a test of unsigned operands wraps around, and buffers of 2 to 1 + decimals
  characters can be overrun without an error (`WritesPastBuffer`, `SilentOverruns`).  No caller has one.
* Times that are accepted may have years of five digits; their texts do not compare like the times
  (`TimeText.TextOrder`).

Where code and documentation disagree the code is followed: P1 values in doc/ins_configure_baker.md; the
instruction byte for level 2 updates by level 1 keys (0x2B, not 0x2C) and a screen with the number of keys
in governance-app/doc/ins_update_authorizations.md; a 64-bit payload length in
governance-app/doc/ins_add_identity_provider.md that the code does not read; the error for a wrong update
type in governance-app/doc/ins_create_plt.md.

## Model

| member | source | states |
|---|---|---|
| Base58.EnoughDigits | src/common/base58check.c:52 | floor(138n/100)+1 base-58 digits hold every number of n bytes, for all n |
| Base58.CarryStep | src/common/base58check.c:64-68 | One step of the carry loop keeps the number that the buffer and the pending carry denote together |
| Base58.AddByte | src/common/base58check.c:63-73 | One pass of the carry loop, with its early exit: the cells then denote 256 times the old number plus the byte, everything left of the returned index is still zero, and the index never goes below zero |
| Base58.EncodeDigits | src/common/base58check.c:60-74 | For every input the cells are base-58 digits whose value is the big-endian base-256 value of the bytes after the leading zeros |
| Base58.CountLeadingZeros | src/common/base58check.c:47-50 | The zero bytes in front, and no more |
| Base58.BigPowers | src/common/base58check.c:52-79 | 58^49 <= 256^36 and 2*256^36 <= 58^50, from which a version-1 address takes exactly 50 digits |
| Base58.SevenZeros | src/common/base58check.c:76-84 | Of the 57 cells of a version-1 address the first seven are zero, the eighth is not, and the other fifty are its digits |
| Base58.AlphabetPass | src/common/base58check.c:86-112 | The in-place pass that turns digits into letters and opens a space after every ten of them yields the address text; no cell is read after it has been rewritten |
| Base58.AddressLayout | src/common/base58check.c:86-112 | 55 characters: a space after every ten, letters of the base-58 alphabet everywhere else |
| Base58.AddressRoundTrip | src/common/base58check.c:37-114 | Reading the text back (skipping the spaces) gives the 37 bytes |
| Base58.Base58Encode | src/common/base58check.c:37-114 | Refused exactly for inputs over 120 bytes or buffers below 57; otherwise 50 characters are reported and the text is the one above |
| Base58.Base58CheckEncode | src/common/base58check.c:118-140 | For any 32-byte address, reading the text back gives version 1, the address, and the first four bytes of the SHA-256 of the SHA-256 of both; any other length throws |
| Base58.AddressTextInjective | src/common/base58check.c:118-140 | Two addresses with the same text are the same address |
| BigEndian.Read8 | src/common/util.h:24 | A 64-bit read is the base-256 value of the eight bytes at its position; the 16- and 32-bit reads of the SDK likewise (Read2, Read4) |
| Calendar.NextDay | src/common/time.c:24-90 | The calendar used as reference: the date of day n+1 is the successor of the date of day n |
| Calendar.DayNumberOf | src/common/time.c:24-90 | Counting the days of years and months gives the day number back, for every day |
| Time.TmRanges | src/common/time.c:75-87 | Every field is in its range, for the month and leap year it belongs to |
| Time.TmRoundTrip | src/common/time.c:24-90 | The fields convert back to exactly the time they were made from |
| Time.TmNextDay | src/common/time.c:24-90 | A day later is the successor date at the same clock time, with the next weekday and day of the year |
| Time.FloorFixup | src/common/time.c:36-51 | C division and the source's correction of negative remainders together are floor division |
| Time.FloorDivision | src/common/time.c:36-51 | The same as code |
| Time.FindCycles | src/common/time.c:53-63 | The centuries, four-year cycles and years that remain, with the source's corrections for the last day of a cycle |
| Time.FindMonth | src/common/time.c:71 | The month loop finds the month, counted from March, and the day in it |
| Time.MarchDate | src/common/time.c:69-81 | Month and day counted from March are the calendar date |
| Time.RepresentableExactly | src/common/time.c:26-80 | The times for which no C int overflows, exactly |
| Time.SecondsToTm | src/common/time.c:24-90 | For all these times the fields are those of the day-by-day proleptic Gregorian calendar; the result is -1 exactly for the times that the first test refuses, and then nothing is written |
| TimeText.TimeToDisplayText | src/common/time.c:104-140 | Writes the text of the time and a terminator, at most 21 bytes, and nothing else |
| TimeText.ShownLength | src/common/time.c:104-140 | Times of the years 1970 to 9999 have texts of exactly 19 characters, later ones of exactly 20 |
| TimeText.TextOrder | src/common/time.c:104-140 | Two accepted times compare as texts, lexicographically, as they compare in time if and only if they are equal or their years have the same number of digits |
| TimeText.TextInjective | src/common/time.c:104-140 | A text determines the second it shows, whatever the number of digits of the year |
| DecimalText.ReadDec | src/common/numberHelpers.c:18-31 | Reading the decimal digits of a number gives the number |
| NumberHelpers.LengthOfNumber | src/common/numberHelpers.c:7-16 | The number of decimal digits |
| NumberHelpers.NumberToText | src/common/numberHelpers.c:18-31 | Refused exactly when the digits do not fit; otherwise the digits are written at their place and nothing else changes |
| NumberHelpers.Bin2Dec | src/common/numberHelpers.c:46-53 | The same with a terminator |
| NumberHelpers.DecimalDigitsDisplay | src/common/numberHelpers.c:55-82 | For every buffer size: what is written, and that an overflow is reported exactly when the zeros fit and the digits do not; without room for the zeros the unsigned test wraps around |
| DecimalText.FractionMeaning | src/common/numberHelpers.c:55-82 | The fraction text denotes the fractional part and ends in no zero |
| NumberHelpers.WriteGrouped | src/common/numberHelpers.c:117-145 | The loop that writes the whole part from the right puts a comma before every third digit |
| DecimalText.GroupedCommas | src/common/numberHelpers.c:117-145 | Commas stand exactly at every fourth place from the right |
| DecimalText.ReadGrouped | src/common/numberHelpers.c:117-145 | Skipping the commas, the text denotes the whole part |
| NumberHelpers.DecimalNumberToDisplay | src/common/numberHelpers.c:84-163 | For every buffer size: what is written; overflow is reported when text and terminator do not fit, unless the wrapped test of the fraction is passed after a plain zero |
| NumberHelpers.WritesPastBuffer | src/common/numberHelpers.c:55-163 | A call writes past its buffer if and only if that test wraps around |
| NumberHelpers.SilentOverruns | src/common/numberHelpers.c:55-163 | Exactly the sizes from 2 to decimals + 1 have an amount below one that overruns the buffer without an error |
| DecimalText.FixedRoundTrip | src/common/numberHelpers.c:84-163 | Reading such a text gives the amount, for every amount and number of decimals |
| NumberHelpers.AmountFits | src/common/numberHelpers.c:181-186 | Every 64-bit amount fits into 30 bytes |
| NumberHelpers.PercentFits | src/common/numberHelpers.c:165-179 | Every fraction up to 100000 fits into 8 bytes |
| NumberHelpers.AmountToGtuDisplay | src/common/numberHelpers.c:181-186 | Never overflows 30 bytes; writes the amount text, its terminator and nothing more |
| NumberHelpers.AmountRoundTrip | src/common/numberHelpers.c:181-186 | Reading the amount text gives exactly the micro amount |
| NumberHelpers.FractionToPercentageDisplay | src/common/numberHelpers.c:165-179 | Throws exactly above 100000; otherwise the percentage text and its terminator are written |
| NumberHelpers.PercentRoundTrip | src/common/numberHelpers.c:165-179 | Reading the percentage text gives exactly the fraction |
| Readback.AddressShown | src/common/util.c:67-113 | An address on a screen reads back as version 1, the address and a checksum that is right |
| Readback.AmountShown | src/common/numberHelpers.c:181-186 | An amount on a screen reads back, in millionths, as the base-256 value of its eight bytes |
| Readback.PercentageShown | src/common/numberHelpers.c:165-179 | A rate on a screen reads back, in thousandths of a percent, as the base-256 value of its four bytes |
| Readback.TimeShown | src/common/time.c:104-140 | The text of every time that a release may have is a date of the calendar and a time of the day in the fixed layout, and counting back gives exactly that second |
| PaginatedHex.ToPaginatedHex | src/common/numberHelpers.c:188-208 | Refused exactly by the size test; otherwise text and terminator are written, also where the test let a buffer pass that is too small, and nothing behind them |
| PaginatedHex.SizeTestProtects | src/common/numberHelpers.c:191-193 | The size test keeps the text inside a buffer of any size if and only if there are at most 8 bytes, or 16 |
| PaginatedHex.NineBytesOverrun | src/common/numberHelpers.c:191-207 | Nine bytes pass it with a buffer of 19 and take 20 |
| PaginatedHex.PagedHexSpaces | src/common/numberHelpers.c:188-208 | A space after every 16 hex characters, none at the end, no other |
| PaginatedHex.PagedHexLength | src/common/numberHelpers.c:188-208 | The length that a buffer has to have |
| PaginatedHex.PagedHexRoundTrip | src/common/numberHelpers.c:188-208 | Removing the spaces and decoding gives the bytes |
| PaginatedHex.PagedHexInjective | src/common/numberHelpers.c:188-208 | Equal texts come from equal bytes |
| Device.Globals.ParseKeyDerivationPath | src/common/util.c:19-39 | At most eight nodes, each read big-endian and hardened; otherwise InvalidPath |
| Device.Globals.HashHeaderAndType | src/common/util.c:45-56 | Header and type are hashed; a type other than the expected one throws |
| Device.Globals.HashAccountTransactionHeaderAndKind | src/common/util.c:67-79 | The same for account transactions, and the sender shown is the first 32 bytes of the header |
| Device.Globals.StartAccountTransaction | src/common/util.c:19-79 | Path, new hash and header: the hash then is exactly header and kind |
| Device.Globals.StartUpdate | src/common/util.c:84-86 | The same for update instructions |
| Device.Globals.HandleHeaderAndToAddress | src/common/util.c:88-113 | The hash then is header, kind and recipient; sender and recipient texts are theirs |
| Device.AddressCharsInjective | src/common/util.c:67-113 | An address on the screen determines the address |
| Screens.ShownExactly | src/displayCbor.c:13-27 | A buffer shows a text exactly if and only if the text holds no zero byte and is followed by one, or by the end of the buffer |
| Screens.ShownOtherwise | src/displayCbor.c:13-27 | Otherwise the text is cut at its first zero byte, or what the buffer held before shows behind it |
| Screens.SameText | src/displayCbor.c:13-27 | Two byte strings look the same if and only if they agree up to their first zero byte |
| DisplayCbor.IntegerTextMeaning | src/displayCbor.c:70-89 | For every 64-bit argument n the text evaluates to n, or to -1-n for major type 1, also where it is written as a subtraction |
| DisplayCbor.IntegerShown | src/displayCbor.c:68-82 | The memo step shows this text exactly, whatever the buffer held, except that for -2^64, whose last character replaces the terminator, the byte at index 25 has to be zero |
| DisplayCbor.CborContext.ReadArgument | src/displayCbor.c:37-66 | The bytes read are a head as section 3 of RFC 8949 defines it, with this major type, size and argument, in terms of base-256 values; indefinite and reserved counts are refused |
| DisplayCbor.DecodeExactly | src/displayCbor.c:29-100 | The items that the statements on memos speak of are those of RFC 8949: a byte string is read as an integer or text if and only if it is one of its encodings, whatever the width of its argument |
| DisplayCbor.HeadRead | src/displayCbor.c:37-66 | Size and argument are those of the head at the start; short counts from 28 on have none |
| DisplayCbor.CborContext.ReadValue | src/displayCbor.c:68-99 | The switch on the major type, which lengths it refuses, and what the display buffer holds then |
| DisplayCbor.CborContext.ReadCborInitial | src/displayCbor.c:29-100 | The first packet of a memo, with the 32-bit and 8-bit counters as they wrap; nothing behind the buffer is written |
| DisplayCbor.CborContext.ReadCborContent | src/displayCbor.c:102-117 | A further packet: copied behind the content for text, wherever that ends, refused for anything else |
| DisplayCbor.BeginTransitOk | src/displayCbor.c:29-100 | The remaining-bytes counter equals declared minus hashed modulo 2^32, but for 256 when the first packet does not hold the whole header; what is copied is what was hashed after the header |
| DisplayCbor.ContinueTransitOk | src/displayCbor.c:102-117 | A further packet keeps this |
| DisplayCbor.ReceivedText | src/displayCbor.c:29-117 | A complete text memo with a nonempty first packet is one text string of the declared length, copied whole |
| DisplayCbor.TextShown | src/displayCbor.c:102-117 | The memo step shows a copied text exactly if and only if the text holds no zero byte and the byte behind it, left from before, is zero |
| DisplayCbor.StaleTail | src/displayCbor.c:102-117 | After a longer memo, the rest of it shows behind a shorter one |
| DisplayCbor.FilledDisplay | src/displayCbor.h:19-24 | A buffer without a zero byte is printed beyond its end: majorType, which lies behind it, and what follows |
| DisplayCbor.HelloAfterAHundred | src/displayCbor.c:102-117 | Five letters after a hundred are shown as a hundred characters |
| DisplayCbor.ReceivedInside | src/displayCbor.c:29-117 | No accepted memo reaches beyond the buffer |
| DisplayCbor.SecondPacket | src/displayCbor.c:102-117 | The second packet of a text stays inside the buffer if and only if the content of the first one, wrapped to eight bits, and its own length add up to at most 255; a memo that overruns it is refused after the copy |
| DisplayCbor.OverrunningPackets | src/displayCbor.c:102-117 | Two packets of 255 bytes, declared as 256, copy 508 characters into the buffer of 255 |
| DisplayCbor.TextLengthExact | src/displayCbor.c:29-117 | As many bytes are hashed as declared if and only if the first packet was not empty |
| DisplayCbor.EmptyFirstPacket | src/displayCbor.c:29-117 | An empty first packet with a declared length of 256 is accepted with nothing hashed |
| DisplayCbor.ReceivedInteger | src/displayCbor.c:70-89 | An integer memo is as long as declared if and only if its packet was, and then the text of its value is written |
| DisplayCbor.LongIntegerPacket | src/displayCbor.c:29-78 | The integer 5, declared as one byte, in a packet of 200 bytes: accepted, with 200 bytes hashed |
| DisplayCbor.ReceivedMemo | src/displayCbor.c:29-117 | Every accepted memo is one that MemoOk describes by its declared length and bytes alone |
| DisplayCbor.SendMemo | src/displayCbor.c:29-117 | Every such memo has packets that are accepted and hash exactly its bytes |
| DisplayCbor.TextMemoAccepted | src/displayCbor.c:29-117 | Every text string of at most 256 bytes, whole or split after its header, is accepted and copied |
| SignTransfer.AcceptExtends | src/signTransfer.c:82-121 | Every accepted packet extends the serialization by exactly the bytes it hashes |
| SignTransfer.SignedIsTransfer | src/signTransfer.c:68-122 | In every run, the bytes hashed at the sign screen are one transfer: header, recipient, memo length, memo, amount |
| SignTransfer.SignedShows | src/signTransfer.c:24-122 | Whatever packets led to the sign screen of a transfer with memo: its texts read back as the sender in the first 32 signed bytes, the recipient behind header and kind, and the value of the last eight bytes |
| SignTransfer.SignedTextMemo | src/signTransfer.c:68-122 | For a text memo they contain exactly one text string of the declared length, and the memo step shows exactly this text if and only if it holds no zero byte and the byte behind it in the buffer is zero |
| SignTransfer.SignedIntegerMemo | src/signTransfer.c:68-122 | For an integer memo the signed declared length is right if and only if its packet had it; then the memo is an integer and its value is shown, for -2^64 if and only if the byte behind the text is zero |
| SignTransfer.LongIntegerSigned | src/signTransfer.c:85-100 | The integer 5 with 199 more bytes, declared as one byte, goes on to the amount with all 200 in what is signed |
| SignTransfer.ShownDetermines | src/signTransfer.c:24-46 | Two transfers have the same screens if and only if sender, recipient, amount and the text of the memo step are the same; memos shown exactly are then the same |
| SignTransfer.SameScreen | src/displayCbor.c:13-27 | Two memos with one screen, over the same old contents of the buffer |
| SignTransfer.TextMemoReachesAmount | src/signTransfer.c:94-111 | Every text memo of at most 256 bytes gets to the amount, whole or split |
| SignTransfer.PlainSigned | src/signTransfer.c:48-61 | In every run of the one-packet transfer the bytes hashed are header, recipient and amount |
| SignTransfer.Context.HandleSignTransfer | src/signTransfer.c:48-61 | One packet: of the 101 bytes hashed, kind 3, the one flow shows the first 32 as sender, the 32 behind header and kind as recipient, and the last eight, as a base-256 value, as amount |
| SignTransfer.Context.HandleSignTransferWithMemo | src/signTransfer.c:68-122 | The handler refines the acceptor: same acceptance, same errors, hash, screens over the real buffer, and reply; nothing behind the buffer changes unless the memo overruns it |
| TransferComplete.SendAll | src/signTransfer.c:68-122 | Every well-formed transfer with memo can be brought to the sign screen |
| TransferComplete.SignedStrings | src/signTransfer.c:68-122 | A byte string can be signed if and only if it consists of header, recipient, memo length, a memo accepted for that length, and amount |
| TransferComplete.StringsOnce | src/signTransfer.c:68-122 | Such a string can be read in one way only |
| TransferComplete.PlainStrings | src/signTransfer.c:48-61 | The same for transfers without memo |
| ScheduleTx.NextExtends | src/signTransferWithSchedule.c:69-108 | Each release is hashed and shown once, in order, and the number left decreases by one |
| ScheduleTx.TakePacketMidway | src/signTransferWithSchedule.c:110-131 | A packet brings min(15, left) releases |
| ScheduleTx.AcceptExtends | src/signTransferWithSchedule.c:146-229 | The packets before the releases extend the serialization by exactly what they hash; the number of releases is hashed after a memo |
| ScheduleTx.SignedSchedule | src/signTransferWithSchedule.c:99-107 | At the sign screen all n announced releases, n at least 1, have been hashed and shown, after ceil(n/15) packets |
| ScheduleRuns.DrainShowsAll | src/signTransferWithSchedule.c:69-131 | A packet gets through exactly when all its releases are accepted, and then each has been shown |
| ScheduleRuns.SignedExactly | src/signTransferWithSchedule.c:69-131 | The sign screen is reached if and only if ceil(n/15) packets came and all their releases are accepted; these are the releases signed |
| ScheduleRuns.EveryScheduleCanBeSigned | src/signTransferWithSchedule.c:69-131 | Every list of 1 to 255 accepted releases can be brought to the sign screen |
| ScheduleRuns.SignedIsSchedule | src/signTransferWithSchedule.c:69-229 | In every run of packets and presses, the bytes hashed at the sign screen are one scheduled transfer |
| ScheduleShown.ShownDetermines | src/signTransferWithSchedule.c:19-108 | Two transfers have the same screens if and only if sender, recipient and text of the memo step are the same, and as many releases with the same seconds and amounts in the same order; memos shown exactly are then the same |
| ScheduleTx.ReleaseShows | src/signTransferWithSchedule.c:74-107 | The second s read back from the time on the screen satisfies 1000 s <= milliseconds < 1000 s + 1000, and the amount reads back as the value of its eight bytes |
| ScheduleShown.SignedShows | src/signTransferWithSchedule.c:19-131 | Whatever packets and presses led to the sign screen: as many releases as the count byte says stand at the end of the signed bytes, and each is shown on its own screen, in order, the last with the question to sign; the first screen shows sender and recipient |
| ScheduleComplete.SendAll | src/signTransferWithSchedule.c:69-229 | Every well-formed scheduled transfer, with or without memo, can be brought to the sign screen |
| ScheduleComplete.SignedStrings | src/signTransferWithSchedule.c:69-229 | A byte string can be signed if and only if it consists of header, recipient, memo if there is one, and 1 to 255 accepted releases after their number |
| ScheduleComplete.StringsOnce | src/signTransferWithSchedule.c:146-229 | Such a string can be read in one way only, if its memo is as long as declared |
| ScheduleComplete.SecondReading | src/signTransferWithSchedule.c:146-229 | A string with a memo has a second reading if and only if some other number is found as many releases before its end, with acceptable releases behind it and an acceptable memo before it |
| ScheduleComplete.TwoReadings | src/signTransferWithSchedule.c:146-204 | One string that is a transfer of one release after an integer memo in a longer packet, and of two releases after the integer alone |
| SignTransferWithSchedule.Context.ShowRelease | src/signTransferWithSchedule.c:74-107 | The release at pos is hashed, and shown with the second its milliseconds begin in and the value of its amount, or refused for its year |
| SignTransferWithSchedule.Context.ProcessNextScheduledAmount | src/signTransferWithSchedule.c:69-108 | The handler's step, also behind the button, refines the step of the acceptor |
| SignTransferWithSchedule.Context.LoadPacket | src/signTransferWithSchedule.c:115-128 | The two counters after a packet, and the copied releases |
| SignTransferWithSchedule.Context.HandleTransferPairs | src/signTransferWithSchedule.c:110-132 | A packet of releases refines the acceptor |
| SignTransferWithSchedule.Context.HandleSignTransferWithScheduleAndMemo | src/signTransferWithSchedule.c:146-204 | The handler refines the acceptor: same acceptance, errors, hash, screens over the real buffer, and reply |
| SignTransferWithSchedule.Context.HandleSignTransferWithSchedule | src/signTransferWithSchedule.c:206-229 | The same without memo |
| SignTransferWithSchedule.Context.ShowNextRelease | src/signTransferWithSchedule.c:38-42 | The press on "Show next release" |
| Displays.ShowTime | src/signTransferWithSchedule.c:77-90 | Every accepted release time fits its 25-byte buffer; later years are refused |
| CredentialTx.AcceptPartExtends | src/signCredentialDeployment.c:272-465 | Every accepted packet of a credential extends its serialization by exactly the bytes hashed, with every list no longer than announced |
| CredentialTx.AcceptExtends | src/signCredentialDeployment.c:201-270 | The same for the transaction around the credentials |
| CredentialTx.SignedBytesAreOneTransaction | src/signCredentialDeployment.c:201-465 | In every run, the bytes hashed at the sign screen are the canonical serialization of one well-formed transaction |
| CredentialRuns.EveryTransactionCanBeSent | src/signCredentialDeployment.c:201-465 | Every well-formed transaction has packets that bring it to the sign screen |
| CredentialUnique.TxBytesInjective | src/signCredentialDeployment.c:201-465 | The nested serialization can be read in one way only |
| CredentialUnique.SignedStrings | src/signCredentialDeployment.c:201-465 | A byte string can be brought to the sign screen if and only if it is the serialization of a signable transaction |
| CredentialFormat.SignedFormat | src/signCredentialDeployment.c:201-465 | The same by position and big-endian number alone: a byte string can be signed if and only if its nested counts and lengths lead exactly to its end |
| CredentialUnique.SignedBytesDetermine | src/signCredentialDeployment.c:201-465 | Runs that sign the same bytes have received the same transaction, however it was cut |
| CredentialTx.NothingAfterEmptyList | src/signCredentialDeployment.c:291-383 | A credential that announces no key, or no anonymity revoker, cannot be continued |
| CredentialRuns.ProofPacketsCount | src/signCredentialDeployment.c:442-465 | max(1, ceil(n/255)) in closed form |
| CredentialRuns.ProofsTakeExactly | src/signCredentialDeployment.c:442-465 | Exactly max(1, ceil(n/255)) proof packets complete a credential, in every run |
| SignCredentialDeployment.RenderedGrows | src/signCredentialDeployment.c:40-143 | Each accepted packet adds exactly the flow it displays |
| SignCredentialDeployment.KeysShown | src/signCredentialDeployment.c:145-199 | Every accepted packet keeps it so: the keys that get a screen are all but the last one of each credential |
| CredentialShown.RunShows | src/signCredentialDeployment.c:145-465 | The same in every run of packets |
| CredentialShown.SignedShows | src/signCredentialDeployment.c:201-465 | At the sign screen of every run the screens are those of the transaction with all keys but the last of each credential |
| CredentialScreens.SignedShows | src/signCredentialDeployment.c:40-199 | The screens by position: the sender in the first 32 bytes, the keys of each credential but its last one, each removed credential, and the last byte as threshold, in that order and nothing else |
| CredentialShown.AllKeysShown | src/signCredentialDeployment.c:145-199 | All hashed keys are shown if and only if there is no credential |
| CredentialShown.ShownDetermines | src/signCredentialDeployment.c:40-199 | Two transactions have the same screens if and only if they have the same sender, shown keys (but for index and scheme), removed credentials and threshold |
| CredentialShown.LastKeyUnseen | src/signCredentialDeployment.c:145-199 | Replacing the last key of any credential of any transaction changes the signed bytes and no screen |
| SignCredentialDeployment.Context.ParseVerificationKey | src/signCredentialDeployment.c:154-199 | A key packet: hashed, counted, and shown unless it is the last |
| SignCredentialDeployment.Context.ShowThresholds | src/signCredentialDeployment.c:340-358 | The threshold line, refused exactly when it does not fit |
| SignCredentialDeployment.Context.HandleSignCredentialDeployment | src/signCredentialDeployment.c:272-465 | Inside update-credentials the inner machine refines the acceptor; it is never in its initial or new-or-existing state, and never restarts the hash or reaches its own sign screens |
| SignCredentialDeployment.Context.HandleSignUpdateCredential | src/signCredentialDeployment.c:201-270 | The handler refines the acceptor: same acceptance, errors, hash, screens and reply |
| AuthorizationsTx.AuthorizationName | governance-app/src/signUpdateAuthorizations.c:62-97 | Throws exactly for types beyond the fifteen structures |
| AuthorizationsTx.KeyOk | governance-app/src/signUpdateAuthorizations.c:270-286 | A key packet is hashed whole and its key shown |
| AuthorizationsTx.LoadOk | governance-app/src/signUpdateAuthorizations.c:309-319 | A packet of indices is hashed whole, in order |
| AuthorizationsTx.NextIndexOk | governance-app/src/signUpdateAuthorizations.c:136-158 | Every hashed index is shown once, in order, under the name of its structure; it throws exactly when more indices came than were announced |
| AuthorizationsTx.AfterThresholdOk | governance-app/src/signUpdateAuthorizations.c:107-131 | A confirmed threshold completes a structure; the sign screen follows the last one and no other |
| AuthorizationsRuns.SignedIsShown | governance-app/src/signUpdateAuthorizations.c:193-331 | In every run, at the sign screen the hashed bytes are one update with as many structures as its version has, and the screens have shown all of it in order |
| AuthorizationsTx.Numbers | governance-app/src/signUpdateAuthorizations.h:36-58 | The number of structures by update type and prefix byte: 12, 14 and 15 for 2, 3 and 4 with root keys, and for 1, 2 and 3 with level 1 keys; no other prefix has one |
| AuthorizationsFormat.SignedFormat | governance-app/src/signUpdateAuthorizations.c:193-331 | By position and big-endian number alone: a byte string can be signed if and only if exactly so many structures stand behind its keys, and end where it ends |
| AuthorizationsFormat.SignedShows | governance-app/src/signUpdateAuthorizations.c:62-331 | The screens by position: the kind of update, every key, and for the j-th structure its indices under the j-th of the fifteen names, and its threshold; nothing else, and the question to sign last |
| AuthorizationsFormat.VersionAnnounced | governance-app/src/signUpdateAuthorizations.c:193-250 | P2 0, 1 and 2 announce 12, 14 and 15 structures, and the prefix has to agree |
| AuthorizationsComplete.SendBatches | governance-app/src/signUpdateAuthorizations.c:136-158 | However the host cuts the indices of a structure into packets of 1 to 127 of them, they are taken, with one press for each |
| AuthorizationsComplete.SendAll | governance-app/src/signUpdateAuthorizations.c:193-331 | Every well-formed update can be brought to the sign screen |
| AuthorizationsComplete.UpdateBytesInjective | governance-app/src/signUpdateAuthorizations.c:193-331 | Its serialization can be read in one way only |
| AuthorizationsComplete.SignedStrings | governance-app/src/signUpdateAuthorizations.c:193-331 | A byte string can be signed if and only if it serializes a well-formed update |
| AuthorizationsComplete.SignedBytesDetermineScreens | governance-app/src/signUpdateAuthorizations.c:136-158 | Runs that sign the same bytes have shown the same screens, across any packet split |
| AuthorizationsShown.NamesDiffer | governance-app/src/signUpdateAuthorizations.c:62-97 | Different structures have different names |
| AuthorizationsShown.ShownDetermines | governance-app/src/signUpdateAuthorizations.c:136-331 | Two updates have the same screens if and only if they have the same keys (but for the scheme bytes) and the same structures, hence the same version |
| SignUpdateAuthorizations.Context.ShowIndex | governance-app/src/signUpdateAuthorizations.c:150-157 | Title and number of the index at bufferPointer; the three counters |
| SignUpdateAuthorizations.Context.ProcessKeyIndices | governance-app/src/signUpdateAuthorizations.c:136-158 | Refines the step of the acceptor; the name is never asked for outside its domain |
| SignUpdateAuthorizations.Context.ConfirmIndex | governance-app/src/signUpdateAuthorizations.c:33-39 | The press on an index |
| SignUpdateAuthorizations.Context.ProcessThreshold | governance-app/src/signUpdateAuthorizations.c:107-131 | The press on a threshold completes one structure more, and asks to sign exactly when these are the 12, 14 or 15 that go with the prefix |
| SignUpdateAuthorizations.Context.HandleSize | governance-app/src/signUpdateAuthorizations.c:287-308 | The size of the next structure; the test for too many structures never fires |
| SignUpdateAuthorizations.Context.HandleSignUpdateAuthorizations | governance-app/src/signUpdateAuthorizations.c:193-331 | The handler refines the acceptor: same acceptance, errors, hash, screens and reply |
| SignCreatePlt.AcceptExtends | governance-app/src/signCreatePlt.c:52-145 | Every accepted packet extends the serialization by exactly the bytes hashed |
| SignCreatePlt.ChunksSign | governance-app/src/signCreatePlt.c:107-141 | For every chunking: waiting while bytes are missing, at the sign screen exactly when the last byte arrives, refused otherwise |
| SignCreatePlt.SignedSerializes | governance-app/src/signCreatePlt.c:42-150 | In every run, the bytes hashed at the sign screen serialize one update |
| SignCreatePlt.SerializesOnce | governance-app/src/signCreatePlt.c:66-104 | The serialization can be read in one way only |
| SignCreatePlt.SignedStrings | governance-app/src/signCreatePlt.c:42-150 | A byte string can be signed if and only if it serializes an update |
| PltFormat.SignedFormat | governance-app/src/signCreatePlt.c:42-150 | The same by position and big-endian number alone |
| PltFormat.SignedShows | governance-app/src/signCreatePlt.c:13-104 | The screen by position: token id up to its first zero byte, module, decimals and the first 512 bytes of the parameters read back as what is signed |
| SignCreatePlt.ShownDetermines | governance-app/src/signCreatePlt.c:13-40 | Two updates have the same screens if and only if they have the same module, decimals and first 512 bytes of the parameters, and the same token id up to its first zero byte; ids without one are then the same |
| SignCreatePlt.SameTokenScreen | governance-app/src/signCreatePlt.c:73-81 | The token ids 41 00 42 and 41 00 43 have one screen |
| SignCreatePlt.TokenIdDetermined | governance-app/src/signCreatePlt.c:73-81 | The screen determines a token id if and only if the id has 128 bytes and no zero byte |
| SignCreatePlt.Context.ReadPayload | governance-app/src/signCreatePlt.c:66-104 | The fields of the payload, hashed one by one; which are refused |
| SignCreatePlt.Context.Store | governance-app/src/signCreatePlt.c:113-123 | The buffer holds the first min(L, 512) bytes received, in order; the wrapped subtraction never leads to a copy |
| SignCreatePlt.Context.HandleParams | governance-app/src/signCreatePlt.c:107-145 | A chunk; at the end the flow shows the first 512 bytes |
| SignCreatePlt.Context.HandleSignCreatePlt | governance-app/src/signCreatePlt.c:42-150 | The handler refines the acceptor: same acceptance, errors, hash, screens and reply |
| IdentityProviderTx.TakeExtends | governance-app/src/signAddIdentityProvider.c:66-172 | Every packet and press keeps the state well-formed and extends the transcript by exactly what is hashed |
| IdentityProviderTx.LeftDrops | governance-app/src/signAddIdentityProvider.c:87-162 | payloadLength is the declared length minus the bytes hashed since, modulo 2^32 |
| IdentityProviderTx.LengthCheckNeverFails | governance-app/src/signAddIdentityProvider.c:157-168 | The final test of the payload length cannot fail: the last packet is accepted exactly when it has 32 bytes |
| IdentityProviderTx.WholeText | governance-app/src/signAddIdentityProvider.c:122-130 | A piece is shown exactly if and only if it holds no zero byte and is shorter than 255 bytes or followed by a zero byte in memory |
| IdentityProviderTx.FullPiece | governance-app/src/signAddIdentityProvider.c:128-130 | A piece of 255 letters behind which descriptionState is 1 is shown with that byte and what follows |
| IdentityProviderTx.PieceShown | governance-app/src/descriptionView.c:40-60 | A piece of a description is shown under the name of its description, and shown exactly under that condition |
| IdentityProviderTx.CompletedFlows | governance-app/src/descriptionView.c:20-38 | Completing a description shows nothing more |
| IdentityProviderRuns.DeclaredLengthExact | governance-app/src/signAddIdentityProvider.c:87-162 | The declared payload length is exact if and only if the payload is shorter than 2^32 bytes |
| IdentityProviderRuns.SignedIsUpdate | governance-app/src/signAddIdentityProvider.c:66-172 | In every run, the bytes hashed at the sign screen are one update: name, URL and description with their declared lengths, verify key and CDI key |
| IdentityProviderComplete.KeyPiecesAvoid | governance-app/src/signAddIdentityProvider.c:135-156 | Every key, of any length, can be cut so that no beginning of it is taken for all of it |
| IdentityProviderComplete.SendAll | governance-app/src/signAddIdentityProvider.c:66-172 | Every well-formed update can be brought to the sign screen |
| IdentityProviderComplete.UpdateBytesInjective | governance-app/src/signAddIdentityProvider.c:66-172 | Its serialization can be read in one way only |
| IdentityProviderComplete.SignedStrings | governance-app/src/signAddIdentityProvider.c:66-172 | A byte string can be signed if and only if it serializes a well-formed update |
| IdentityProviderFormat.SignedFormat | governance-app/src/signAddIdentityProvider.c:66-172 | The same by position and big-endian number alone: a number of at most 9999, three texts behind their lengths, a key, and a key of 32 bytes; the payload length agrees modulo 2^32 |
| IdentityProviderFormat.SignedShows | governance-app/src/signAddIdentityProvider.c:24-172 | The screens by position: the number, the pieces of name, URL and description under these titles and in this order, the hash of the key, and the other key, which read back as what is signed |
| IdentityProviderShown.SamePieceText | governance-app/src/descriptionView.c:40-60 | Two pieces look the same, whatever lies behind them, if and only if they agree up to the first zero byte and, when they fill the buffer without one, what is shown behind them agrees |
| IdentityProviderShown.ShownDetermines | governance-app/src/signAddIdentityProvider.c:24-172 | Two updates have the same screens, in any memory, if and only if they have the same number, pieces that look the same in this sense, verify keys of the same hash, and the same CDI key |
| IdentityProviderShown.NoZeroAlike | governance-app/src/descriptionView.c:40-60 | Pieces that look the same and hold no zero byte are the same, whatever lies behind them |
| SignAddIdentityProvider.Context.CheckIfDescriptionPartIsDone | governance-app/src/signAddIdentityProvider.c:51-64 | What follows the last piece of a description |
| SignAddIdentityProvider.Context.HandleDescriptionPart | governance-app/src/descriptionView.c:20-38 | The description that comes next |
| SignAddIdentityProvider.Context.CopyPiece | governance-app/src/signAddIdentityProvider.c:122-130 | What the buffer and the memory behind it show after the copy, with a terminator or without |
| SignAddIdentityProvider.Context.DisplayDescriptionPart | governance-app/src/descriptionView.c:40-60 | The name shown is that of the description being received, the text that of the buffer and the memory behind it |
| SignAddIdentityProvider.Context.ReadNumbers | governance-app/src/signAddIdentityProvider.c:87-97 | The number of the provider is refused exactly when it has more than four digits |
| SignAddIdentityProvider.KeyTaken | governance-app/src/signAddIdentityProvider.c:135-156 | A packet of the verify key; at its end the hash of exactly the key bytes is shown |
| SignAddIdentityProvider.Context.HandleSignAddIdentityProvider | governance-app/src/signAddIdentityProvider.c:66-172 | The handler refines the acceptor: same acceptance, errors, hash, screens and reply |
| ConfigureBakerTx.AcceptExtends | src/signConfigureBaker.c:250-461 | In a session started anew, every accepted packet extends the serialization by exactly the bytes hashed |
| ConfigureBakerTx.BitmapCases | src/signConfigureBaker.c:264-280 | Which bitmaps are let through: those with one of the low eight bits, and 256, 512 and 768 |
| ConfigureBakerTx.ReviewFirstSignLast | src/signConfigureBaker.c:80-201 | Review and sender are in the first flow and no other, the question to sign in the last flow of a complete transaction and no other |
| ConfigureBakerTx.PageShown | src/signConfigureBaker.c:433-455 | A page of the URL that is not the last shows exactly its piece if and only if the piece holds no zero byte and the byte behind it, left from before, is zero; the last page needs only the former |
| ConfigureBakerRuns.SignedIsTx | src/signConfigureBaker.c:250-461 | In every session that an initial packet with an announced field has started, the hashed bytes are one well-formed transaction |
| ConfigureBakerFormat.Bits | src/signConfigureBaker.c:264-280 | The eight fields are the bits of the bitmap: field i is announced if and only if bitmap / 2^i is odd |
| ConfigureBakerFormat.SignedFormat | src/signConfigureBaker.c:250-461 | A byte string can be signed if and only if behind the bitmap stand the fields whose bit is set, from the lowest bit on, and nothing else: 8 bytes of capital, 1 of restake (at most 1), 1 of open status (at most 2), 192 and 160 of keys, a URL of at most 2048 bytes behind its length, and three rates of 4 bytes (at most 100000) |
| ConfigureBakerSteps.SignedShows | src/signConfigureBaker.c:60-201 | For each bit that is set there is a group of steps with the titles of its field, one step except for a URL, in the order of the bits, and it reads back as the field; a step with such a title appears for no other bit |
| ConfigureBakerRuns.TxBytesInjective | src/signConfigureBaker.c:250-461 | The serialization can be read in one way only |
| ConfigureBakerRuns.SignedStrings | src/signConfigureBaker.c:250-461 | A byte string can be brought to the sign screen by such a session if and only if it serializes a well-formed transaction |
| ConfigureBakerMemory.EffectLinked | src/signConfigureBaker.c:80-201 | In any memory: no text or length is read that another member of the union has overwritten |
| ConfigureBakerMemory.EffectHashes | src/signConfigureBaker.c:250-461 | In any memory: an initial packet drops what the hash has absorbed, any other accepted packet adds its bytes to it |
| ConfigureBakerSessions.SessionGoes | src/signConfigureBaker.c:250-461 | The handler does to its memory what ConfigureBakerTx does to the transaction: same acceptance, errors and replies, and the flow shown is the next one of the transaction |
| ConfigureBakerSessions.AnewSession | src/signConfigureBaker.c:250-461 | In whatever memory a session begins, if its first packet announces a field it receives one transaction: acceptance, hash, screens and question to sign are those of ConfigureBakerTx |
| ConfigureBakerSessions.SessionScreens | src/signConfigureBaker.c:80-201 | Its screens are those of the transaction, over what the URL buffer held |
| ConfigureBakerSessions.SessionHash | src/signConfigureBaker.c:250-461 | In every session the hash holds what it held before, unless the first packet is an initial one, and then the bytes of the session |
| ConfigureBakerSessions.SignedExactly | src/signConfigureBaker.c:256-290 | In whatever memory a session begins: what the user signs is its own bytes, and one well-formed transaction, if and only if its first command has P1 0x00 and a bitmap with one of the low eight bits |
| ConfigureBakerSessions.SignedAnew | src/signConfigureBaker.c:250-461 | In whatever memory: a byte string can be signed by a session that begins so if and only if it serializes a well-formed transaction |
| ConfigureBakerSessions.NoTransaction | src/signConfigureBaker.c:264-290 | What a session signs whose initial packet has bits 8 and 9 only is never a transaction |
| ConfigureBakerSessions.StateKept | src/signConfigureBaker.c:256-290 | The bitmaps 256, 512 and 768 give a new hash and keep the state |
| ConfigureBakerSessions.NothingAnnounced | src/signConfigureBaker.c:291-461 | Exactly which packets are accepted then, by the state that was kept |
| ConfigureBakerSessions.FeeAsked | src/signConfigureBaker.c:456-458 | The handler still awaits rates after it has asked to sign |
| ConfigureBakerSessions.FeeAgain | src/signConfigureBaker.c:210-247 | A session that begins with another rate asks again, without the review and sender steps, over both |
| ConfigureBakerSessions.TwoFees | src/signConfigureBaker.c:250-461 | Header, bitmap 0x0020 and two rates are no transaction |
| ConfigureBakerShown.ShownDetermines | src/signConfigureBaker.c:60-201 | Two transactions have the same screens if and only if they have the same sender, announce the same known fields, and agree in amount, settings, rates and the pages of the URL; the keys are signed unseen |
| SignConfigureBaker.Context.CopyUrl | src/signConfigureBaker.c:433-437 | A piece of the URL goes to the start of the buffer and leaves the rest of it as it was |
| SignConfigureBaker.Context.ReadFirst | src/signConfigureBaker.c:291-384 | The first batch is accepted exactly when it consists of the announced fields with valid values |
| SignConfigureBaker.Context.ReadRates | src/signConfigureBaker.c:210-244 | The rates are accepted exactly when all announced ones, and no more bytes, are there and none is above 100 percent; the 8-bit countdown is exact |
| SignConfigureBaker.Context.StartConfigureBakerDisplay | src/signConfigureBaker.c:80-115 | The first flow, from the texts in memory |
| SignConfigureBaker.Context.StartConfigureBakerUrlDisplay | src/signConfigureBaker.c:132-162 | The URL flows, with the review and sender steps exactly if no flow has shown them since the initial packet |
| SignConfigureBaker.Context.StartConfigureBakerCommissionDisplay | src/signConfigureBaker.c:171-201 | The commission flow, likewise; without an announced rate it only asks |
| SignConfigureBaker.Context.HandleInitial | src/signConfigureBaker.c:256-290 | An initial packet in any memory: what it resets, the fields it announces bit by bit, and the state that it keeps when nothing is announced |
| SignConfigureBaker.Context.HandleCommissionRates | src/signConfigureBaker.c:210-247 | The rates in any memory; the state stays as it was |
| SignConfigureBaker.Context.HandleSignConfigureBaker | src/signConfigureBaker.c:250-461 | In any memory, on an initial call or a later one, with any P1: acceptance, errors, reply, flow and new memory are those of Effect |
| Runs.RunSound | src/common/mainHelpers.c:55-120 | A protocol whose every step extends the transcript by what it hashes does so over whole runs |
| MainHelpers.NextKeeps | src/common/mainHelpers.c:55-120 | One round of the loop, or a press, keeps what is known of signatures and of the session that runs |
| MainHelpers.EverySession | src/common/mainHelpers.c:55-120 | For all lists of inputs: right before every signature come the events of one session of its instruction, from its first, none refused, and the signed bytes are what the first of them has kept of the hash and what these hashed |
| MainHelpers.EndsWithOnce | src/common/mainHelpers.c:81-94 | The log says which events these are |
| LoopCompletes.SessionGoes | src/common/mainHelpers.c:55-120 | The converse of EverySession: from any point of any history at which no session runs, every accepted run of a handler can be gone through with the inputs built from its packets and presses, a press after each screen that asks to go on; the log gets exactly its events |
| LoopCompletes.SessionSigns | src/common/sign.c:30-38 | ... and when it is done, a press to sign ends it with the signature over what it has kept and hashed, a press to decline without one |
| LoopCompletes.RefusedEnds | src/common/mainHelpers.c:81-120 | A command of another class or instruction, or one that the handler refuses, ends the session with its error and without a signature |
| Waiting.AuthorizationsHost | governance-app/src/signUpdateAuthorizations.c:33-39 | In every handler: a packet or press that puts a flow on the display waits for the user, for the question to sign when the flow ends in the steps to sign and decline, for a callback when it ends in a step that has one; one that shows nothing waits for nothing (level 2 updates, packets) |
| Waiting.AuthorizationsConfirm | governance-app/src/signUpdateAuthorizations.c:107-158 | Level 2 updates, presses |
| Waiting.CredentialWaits | src/signCredentialDeployment.c:201-465 | Update-credentials |
| Waiting.IdentityProviderHost | governance-app/src/signAddIdentityProvider.c:66-172 | Add-identity-provider |
| Waiting.ScheduleWaits | src/signTransferWithSchedule.c:69-229 | Scheduled transfers |
| Waiting.TransferWaits | src/signTransfer.c:24-122 | Transfers with memo |
| Waiting.PltWaits | governance-app/src/signCreatePlt.c:42-150 | Create-PLT |
| Waiting.BakerWaits | src/signConfigureBaker.c:80-201 | Configure-baker, in any memory |
| GovernanceMain.EverySignature | governance-app/src/main.c:89-167 | For all lists of inputs: every signature is over one well-formed update of the kind its instruction stands for |
| GovernanceSigned.SessionSigned | governance-app/src/main.c:89-167 | Every accepted session that is done can be gone through from any point at which no session runs; the log gets its events and its signature, and nothing else |
| GovernanceSigned.SignedFromAnywhere | governance-app/src/main.c:89-167 | Whatever has happened before, there are inputs that have any given well-formed update signed |
| GovernanceSigned.SignedExactly | governance-app/src/main.c:89-167 | A byte string is signed for an instruction in some history if and only if it is a well-formed update of the kind that the instruction stands for |
| GovernanceSigned.SignedByNumber | governance-app/src/main.c:89-167 | The same in numbers: instruction bytes 0x2A, 0x2B, 0x2D and 0x48, update types, and positions in the signed bytes |
| GovernanceMain.TakeFits | governance-app/src/signUpdateAuthorizations.c:193-331 | What a handler has accepted is what the running hash holds, and how it answers decides what may come next |
| GovernanceMain.Main.Handler | governance-app/src/main.c:89-167 | The switch on the instruction, on the contexts that share the one running hash: on the initial call it takes the packet as a new session, whatever the hash held |
| GovernanceMain.Main.Catch | src/common/mainHelpers.c:97-120 | Errors end the session or reset the device; either way the next command starts a session |
| GovernanceMain.Main.Exchange | src/common/mainHelpers.c:61-94 | One round of the loop does what Next says of it, log and state included; instructions outside the model reply, wait, fail or end their session |
| GovernanceMain.Main.Continue | governance-app/src/signUpdateAuthorizations.c:33-39 | So does a press on a step that goes on; where the step only asks to go on, the session stays as it is |
| GovernanceMain.Main.Sign | src/common/sign.c:30-38 | What the running hash has absorbed is signed, which is what the history says |
| GovernanceMain.Main.Decline | src/common/util.c:115-120 | A refusal ends the session |
| GovernanceMain.Main.Loop | src/common/mainHelpers.c:55-120 | For all lists of inputs the loop ends in the state, and with the log, of the history; each of its signatures is over one well-formed update of its kind |
| WalletMain.EverySignature | src/main.c:79-143 | For all lists of inputs, whatever the memory holds: every signature of these instructions is over one well-formed transaction of its kind; one of configure-baker, over its own bytes and a transaction exactly when its session began with an initial packet that announces a field |
| WalletSigned.SessionSigned | src/main.c:79-143 | Every accepted session that is done, in whatever memory it begins, can be gone through from any point at which no session runs and the memory is so; the log gets its events and its signature, and nothing else |
| WalletSigned.SignedFromAnywhere | src/main.c:79-143 | Whatever has happened before, there are inputs that have any given well-formed transaction signed |
| WalletSigned.SignedExactly | src/main.c:79-143 | A byte string is signed for an instruction other than configure-baker in some history if and only if it is a well-formed transaction of the kind that the instruction stands for |
| WalletSigned.BakerSignedExactly | src/main.c:131-133 | A byte string is signed by a session of configure-baker that begins with an initial packet announcing a field, in some history, if and only if it is a well-formed transaction |
| WalletSigned.SignedByNumber | src/main.c:79-143 | The same in numbers for transfers without memo (0x02), update-credentials (0x31) and configure-baker (0x18) |
| WalletMain.FeeHistory | src/main.c:131-133 | What the loop does when a transaction fee is declined and a session begins with another one: a signature over both, which is no transaction |
| WalletMain.Main.BakerHandler | src/main.c:131-133 | Configure-baker on the memory that the session finds |
| WalletMain.Main.Handler | src/main.c:79-143 | The switch on the instruction, on contexts that share the running hash and the memo buffer, as above |
| WalletMain.Main.PlainHandler | src/signTransfer.c:48-61 | The one-packet transfer: always an initial call |
| WalletMain.Main.Exchange | src/common/mainHelpers.c:61-94 | One round of the loop does what Next says of it, log and state included; a session of configure-baker finds what its last one has left, or any memory |
| WalletMain.Main.Continue | src/signTransferWithSchedule.c:38-42 | So does a press on a step that goes on; where the step only asks to go on, the session stays as it is |
| WalletMain.Main.Sign | src/common/sign.c:30-38 | What the running hash has absorbed is signed |
| WalletMain.Main.Loop | src/common/mainHelpers.c:55-120 | For all lists of inputs the loop ends in the state, and with the log, of the history; its signatures are as EverySignature says |

## Left out

- SDK code: key derivation, signatures, SHA-256 and BLS are uninterpreted; the derivation path is parsed, but not tied to the signature of the loop.
- USB and Bluetooth transport, boot, menu, glyphs, paging and navigation between the steps of a flow.
- Interleavings outside command and response: a host packet while a screen waits, a second press on an answered screen.
- Packets shorter than the fields a branch reads: the bytes behind them count as their data, as in the C code.
- Stand-alone credential deployment (its initial packet, NEW_OR_EXISTING and its sign screens), transfer-to-public, encrypted transfers, register-data, configure-delegation, single-packet parameter updates, protocol updates, higher-level keys, key export, address verification and public keys: weaker repeats of what is here, or straight-line code.
- The capacity of the C arrays of flow steps; flows are sequences.
- What lies behind the URL buffer: a page over 256 bytes without a zero among them is taken to end with the buffer.
- What the SDK leaves of a hash that has been finished, and what a handler leaves in memory when it throws: the next session finds any memory.
- ConfigureBakerSessions.SignedExactly: the if-and-only-if about transactions is for sessions that find a hash which has absorbed something; in front of an empty one the signed bytes are the session's own whatever its first packet is.
- Base58.Base58Encode: the output format is claimed for the 37 bytes of a version-1 address only, not for other lengths or leading zero bytes; the digit loop (`EncodeDigits`) is claimed for all inputs.
- Base58.AlphabetPass: likewise for the digits of such an address.
- Time.SecondsToTm: the times between the exact bound `Representable` and those refused at once are left out, as a C int overflows for them and C leaves the result undefined.
- TimeText.TimeToDisplayText: buffers of at least 21 bytes; its one caller has 25.
- NumberHelpers.DecimalDigitsDisplay: stated for positive numbers with no more digits than decimals, as its callers guarantee.
- PaginatedHex.ToPaginatedHex: stated for up to 2048 bytes, behind which the eight-bit count of spaces wraps around.
- ScheduleRuns.SignedExactly: about the packets of releases; with the packets before them and the presses it is `ScheduleComplete.SignedStrings`.
