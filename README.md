# asyncProtocol in Dafny

asyncProtocol is a symmetric RPC protocol: either end of a connection may call the other and
receives a typed return or a typed exception. Many calls can be in flight on one stream at a
time. The repository implements the protocol for Node.js (`nodejs/`), for the browser
(`web/`, with named calls bound to a context) and for a second browser client (`js/`). This
project models its core and proves properties of the model:

- **Values on the wire** (`wire.dfy`, `emit.dfy`). This covers the prefix-length uint code: a
  1 to 8 byte code whose first byte's bucket gives the length. It also covers the rebiased int
  code. The model proves the bucket table and the exact layout `addUint`/`addInt` write, and
  the round trip through `readUint`/`readInt`.
- **Encoders** (`databuffer.dfy`, `nodedata.dfy`, `webdata.dfy`, `utf8.dfy`, `jsdata.dfy`).
  These are the growable `DataBuffer` and the three `Data` classes, with arrays for the buffers
  and `while` loops where the source loops. The js `Data` also tracks a format string, and
  `DataArray` checks the format of each element.
- **Decoder** (`inflate.dfy`). This is the cursor-based `readUint`, `readInt`, ...,
  `inflateData`, against pure reading functions that distinguish truncated from corrupt input.
- **Format-driven encoder** (`deflate.dfy`). This is `deflateData`/`fitIn*`, with the round
  trip `inflateData(deflateData(obj, f), f) == obj` for values that fit.
- **Signatures** (`expand.dfy`, `formats.dfy`). This is the `expand*` parser of
  `#17 getSum(a:int,b:int) -> sum:int` into an id, a name and field trees with their format
  strings, including the parenthesis checks. The parser is proved against a functional
  reference, and the text a signature is written as reads back as that signature.
- **Tokens** (`tokens.dfy`). These are 16-byte values with copy, equality and hex round trip.
- **Registries** (`context.dfy`, `protocol.dfy`). This covers the name- and id-keyed `Context`
  and the static registries of the Node.js and js connections.
- **Framer** (`framer.dfy`). This is the length-prefixed loop of `NetWrapper`. The model proves
  that chunk boundaries do not matter and that the loop delivers exactly the bodies `send`
  framed.
- **Connections** (`protocol.dfy`, `nodeconnection.dfy`, `webconnection.dfy`,
  `jsconnection.dfy`). Each variant is modelled twice:
  - as a pure session state with one function per handler (`*Session`), and
  - as a class with the source's fields whose methods are proved equal to those functions
    (`*Connection`).
  The model tracks every call stored in the pending table with a ledger: pending, settled
  once, or lost. Where the "## Findings" section shows that a handler as written loses a
  pending call, answers twice or sends a wrong frame, the classes run the corrected handler
  and the lemmas below are about it; the handler as written is kept beside it with the lemma
  that shows the fault. For the corrected handlers the lemmas prove four things:
  - every handler keeps the ledger;
  - closing settles each pending call exactly once;
  - answers are given at most once;
  - what a call or an answer writes reads back on the other side as that message.

Timers, sockets and application callbacks are events and parameters of the model:
- a timer firing is the `Timeout(s, id)` handler;
- the socket closing is `Close(s)`;
- incoming bytes are `Receive`/`OnMessage`;
- the outcome delivered to a callback is a `Settlement` record (returned, exception, timeout
  or closed).

Where the source is wrong and the model shows it, the model keeps the code as written beside a
corrected version. The "## Findings" section lists these.

## Model

| member | source | states |
|---|---|---|
| Wire.ConstantTable | nodejs/Data.js:186-209 | the first byte of each bucket (OFFSET_k_B), the capacities 2^(7k) (MAX_UINT_k_B + 1) and the signed minima (MIN_INT_k_B) evaluate to 0, 128, 192, …, 254; 128, 16384, …, 2^56; -64, -8192, …, -2^48; MAX_DOUBLE_INT lies below 2^56 |
| Wire.BucketsAdjacent | nodejs/Data.js:202-209 | the first bytes of bucket k end where those of bucket k + 1 begin, and 255 belongs to no bucket |
| Wire.BucketOfRange | nodejs/inflateData.js:31-57 | the bucket readUint reads from a first byte is k exactly when the byte lies in [OFFSET_k_B, OFFSET_k_B + 2^(8-k)) |
| Wire.LengthFrom | nodejs/Data.js:44-67 | the bucket addUint chooses is the least one whose capacity exceeds u, 8 when none of 1..7 does |
| Wire.IntLengthFrom | nodejs/Data.js:87-122 | the bucket addInt chooses is the least one whose signed range [-2^(7k-1), 2^(7k-1)) holds i, 7 when none before does |
| Wire.IntRebias | nodejs/Data.js:87-122 | the rebiased value i - MIN_INT_k_B fits the k-byte layout |
| Wire.UintBytesLayout | nodejs/Data.js:44-73 | the unsigned code of u is the k-byte layout of u in its narrowest bucket |
| Wire.UintParts | nodejs/Data.js:44-73 | the code of u is the first byte OFFSET_k_B + u mod 2^(8-k) followed by the bytes the `while (u)` loop emits for the rest, none in the one-byte bucket |
| Wire.IntParts | nodejs/Data.js:87-128 | the code of i is the first byte of the rebiased value followed by exactly k - 1 little-endian bytes of the rest |
| Wire.LEUntilZeroExact | nodejs/Data.js:69-73 | the `while (u)` loop emits exactly k - 1 bytes when the rest needs k - 1 bytes |
| Wire.LERoundTrip | nodejs/inflateData.js:62-66 | reading n little-endian bytes gives back any value below 256^n |
| Wire.AssembleSpan | nodejs/inflateData.js:35-66 | within its bucket, the mask and shifts of readUint compute first mod 2^(8-k) + 2^(8-k) · rest |
| Wire.AssembleBound | nodejs/inflateData.js:35-66 | what readUint assembles from a bucket-k first byte and k - 1 further bytes fits the bucket |
| Wire.LayoutAtBound | nodejs/inflateData.js:22-70 | a read that succeeds returns a value that fits its bucket and consumes no more bytes than there are |
| Wire.AssembleSplit | nodejs/inflateData.js:35-66 | assembling the first byte and rest that addUint splits v into gives v back |
| Wire.FirstMask | nodejs/inflateData.js:35-55 | the mask of bucket k recovers exactly the low bits addUint stored in the first byte |
| Wire.LayoutParts | nodejs/inflateData.js:22-70 | the first byte of a k-byte layout names bucket k, and readUint's assembly of its bytes gives the value back |
| Wire.LayoutRoundTrip | nodejs/inflateData.js:22-70 | reading a layout back at its offset gives its bucket and value, whatever bytes precede and follow it |
| Wire.UintRoundTrip | nodejs/inflateData.js:22-70 | readUint on the bytes addUint(u) writes gives u and advances the offset by exactly their length, whatever surrounds them |
| Wire.IntRoundTrip | nodejs/inflateData.js:75-120 | readInt on the bytes addInt(i) writes gives i and advances the offset by exactly their length |
| Emit.ValidUintHasCode | nodejs/Data.js:40-41 | every integer addUint accepts (0 ≤ u ≤ 2^53 - 1) has a code below 2^56 |
| Emit.ValidIntHasCode | nodejs/Data.js:83-84 | addInt accepts i exactly when i lies in the range of the 7-byte bucket and is not its least value -2^48 |
| Emit.PutRest | nodejs/Data.js:69-73 | the trailing loop of addUint appends exactly the little-endian bytes of the rest up to its last nonzero byte |
| Emit.PutFixed | nodejs/Data.js:124-128 | the trailing loop of addInt appends exactly `length` little-endian bytes of the rest |
| Emit.UintBucket | nodejs/Data.js:44-67 | the if-chain of addUint picks the narrowest bucket that holds u |
| Emit.IntBucket | nodejs/Data.js:87-122 | the if-chain of addInt picks the narrowest bucket whose signed range holds i |
| Emit.PutUint | nodejs/Data.js:43-75 | a valid u appends exactly its unsigned code and keeps the bytes already written |
| Emit.IntHead | nodejs/Data.js:86-122 | the first byte, rest and trailing count addInt computes make up exactly the signed code of i |
| Emit.PutInt | nodejs/Data.js:86-130 | a valid i appends exactly its signed code and keeps the bytes already written |
| Emit.AddUint | nodejs/Data.js:38-76 | addUint throws TypeError, having written nothing, exactly when the value is not an integer in [0, 2^53 - 1]; otherwise it appends the code |
| Emit.AddInt | nodejs/Data.js:79-131 | addInt throws TypeError, having written nothing, exactly when the value is not an integer with abs value below 2^48; otherwise it appends the code |
| Buffers.DataBuffer.constructor | nodejs/DataBuffer.js:3-6 | a new buffer uses no bytes and allocates `length`, or 256 when `length` is 0 |
| Buffers.DataBuffer.Alloc | nodejs/DataBuffer.js:28-36 | after `_alloc(amount)` the allocation holds the bytes in use plus `amount`, it is the old one doubled zero or more times, it is replaced only when too small and only by a fresh array not twice too large, and the bytes in use are unchanged |
| Buffers.DoubledHalf | nodejs/DataBuffer.js:28-36 | a capacity doubled from 2·c0 is doubled from c0, which lets the recursion of `_alloc` keep "only ever doubles" |
| Buffers.DataBuffer.AppendByte | nodejs/DataBuffer.js:11-14 | appending a number puts that byte at the old length and adds exactly one byte |
| Buffers.DataBuffer.AppendBytes | nodejs/DataBuffer.js:15-18 | appending a Buffer puts its bytes at [old length, old length + its length) and keeps the bytes before |
| Buffers.DataBuffer.AppendBuffer | nodejs/DataBuffer.js:19-22 | appending a DataBuffer adds only the bytes it uses, also when it is the buffer itself, and leaves another buffer unchanged |
| Buffers.DataBuffer.Append | nodejs/DataBuffer.js:10-25 | `append` dispatches on the argument's type; any other argument throws TypeError and changes nothing |
| NodeData.Data.constructor | nodejs/Data.js:4-7 | a new Data has no bytes and 128 allocated |
| NodeData.Data.Append | nodejs/Data.js:24-35 | a number appends one byte, a Buffer its bytes; anything else throws TypeError and writes nothing |
| NodeData.Data.AddUint | nodejs/Data.js:38-76 | throws TypeError, writing nothing, exactly where the value is not an accepted unsigned integer; otherwise appends its code |
| NodeData.Data.AddInt | nodejs/Data.js:79-131 | throws TypeError, writing nothing, exactly where the value is not an accepted signed integer; otherwise appends its code |
| NodeData.Data.AddFloat | nodejs/Data.js:134-139 | appends exactly the four bytes of the float |
| NodeData.Data.AddToken | nodejs/Data.js:142-145 | appends exactly the token's sixteen bytes |
| NodeData.Data.AddString | nodejs/Data.js:148-155 | appends the UTF-8 byte count as a uint and then exactly those bytes; a count addUint refuses throws TypeError and writes nothing |
| NodeData.Data.AddBuffer | nodejs/Data.js:158-162 | appends the length as a uint and then the bytes; a length addUint refuses throws TypeError and writes nothing |
| NodeData.Data.AddBoolean | nodejs/Data.js:165-168 | appends one byte, 1 for a truthy argument and 0 otherwise |
| NodeData.Data.ToBuffer | nodejs/Data.js:171-173 | returns exactly the bytes written, in order |
| WebData.Data.constructor | web/Data.js:4-7 | a new Data has no bytes and 128 allocated |
| WebData.Data.Append | web/Data.js:24-39 | a number appends one byte, a Uint8Array its bytes, a Data only the bytes it uses; anything else throws TypeError and writes nothing |
| WebData.Data.AddData | web/Data.js:187-190 | the bytes become the old bytes followed by the bytes the other Data uses, and the other Data is unchanged |
| WebData.Data.AddUint | web/Data.js:42-81 | the same validation and bucket layout as the node encoder |
| WebData.Data.AddInt | web/Data.js:83-136 | the same range, bucket choice and rebias as the node encoder |
| WebData.Data.AddFloat | web/Data.js:138-144 | appends exactly the four bytes of the float |
| WebData.Data.AddToken | web/Data.js:147-150 | appends exactly the token's sixteen bytes |
| WebData.Data.AddString | web/Data.js:153-171 | succeeds exactly when the string has a code: a surrogate code unit throws URIError, a byte count addUint refuses throws TypeError, and a failure writes nothing; otherwise the byte count then the bytes |
| WebData.Data.AddBuffer | web/Data.js:174-178 | appends the length as a uint and then the bytes |
| WebData.Data.AddBoolean | web/Data.js:181-184 | appends one byte, 1 or 0 |
| WebData.Data.ToBuffer | web/Data.js:193-195 | returns exactly the bytes written |
| Utf8.EncodeFails | web/Data.js:158-166 | the character loop fails exactly when the string holds a surrogate code unit, and then with URIError |
| Utf8.EncodeAscii | web/Data.js:159-160 | each code unit below 128 is written as one byte equal to its code |
| Utf8.EncodeSnoc | web/Data.js:158-166 | one more code unit appends exactly its bytes to the encoding |
| Utf8.UnitRoundTrip | web/Data.js:159-165 | UTF-8 decoding of one unit's bytes gives the unit back, whatever follows |
| Utf8.RoundTrip | web/Data.js:158-166 | decoding the bytes `addString` writes gives the string back |
| Utf8.UnitDecoded | nodejs/inflateData.js:156 | Node's `toString("utf8")` reads the bytes of any code unit `addString` encodes back as that unit, whatever follows |
| Utf8.PairDecoded | nodejs/inflateData.js:156 | a two-byte character (lead C2 to DF) decodes to its code point |
| Utf8.TripleDecoded | nodejs/inflateData.js:156 | a three-byte character outside the surrogates passes the E0 and ED bounds and decodes to its code point |
| Utf8.QuadDecoded | nodejs/inflateData.js:156 | a four-byte character, U+10000 to U+10FFFF, passes the F0 and F4 bounds and decodes to its surrogate pair |
| Utf8.DecodedRoundTrip | nodejs/inflateData.js:156 | `toString("utf8")` on the bytes `addString` writes gives the string back |
| Utf8.DecodedPair | nodejs/inflateData.js:156 | F0 9F 98 80 (U+1F600) decodes to the two code units D83D DE00 |
| Utf8.DecodedReplacement | nodejs/inflateData.js:156 | a byte that starts no character, a second byte outside its lead's range and a character cut short each decode to U+FFFD |
| Utf8.AppendEach | web/Data.js:163-164 | the inner loop appends each byte of a code unit, in order |
| Utf8.Transcode | web/Data.js:157-166 | the character loop succeeds exactly when the string encodes, appending exactly its encoding, and fails with URIError otherwise |
| Strings.PutString | web/Data.js:153-171 | `addString` succeeds exactly when the string encodes and its byte count is accepted; on failure nothing is written; on success the count then the bytes |
| Tokens.DigitValue | web/Token.js:25-27 | `parseInt` of one hex digit, in either case, is below 16 |
| Tokens.HexDigit | web/Token.js:47-48 | the digit `toString(16)` gives is a lowercase hex digit that parses back to its value |
| Tokens.HexRoundTrip | web/Token.js:25-51 | `toString` gives 32 lowercase hex digits, which toTokenBuffer accepts and parses back to the token's sixteen bytes |
| Tokens.NewBytesAccepts | web/Token.js:6-31 | a token can be built exactly from a falsy base (random bytes), sixteen bytes, a token or, in the web variant only, 32 hex digits; anything else throws TypeError |
| Tokens.Token.Of | nodejs/Token.js:8-13 | a token holds a fresh copy of the bytes given, so it does not alias them |
| Tokens.Token.IsEqual | nodejs/Token.js:24-30 | `isEqual` is true exactly when all sixteen bytes match |
| Tokens.Token.WebIsEqual | web/Token.js:35-41 | `isEqual(obj)` throws TypeError exactly when obj cannot be made a token, and otherwise is true exactly when the sixteen bytes match |
| Tokens.Token.ToString | web/Token.js:44-51 | `toString` gives 32 hex digits that parse back to the token's bytes |
| Tokens.TokenBuffer | web/Token.js:19-31 | toTokenBuffer fills a fresh sixteen-byte array from a Uint8Array of sixteen bytes, a Token or 32 hex digits, and throws TypeError otherwise |
| Tokens.NewWebToken | web/Token.js:6-15 | `new Token(base)` gives a fresh token holding the bytes of the base, the random bytes for a falsy base, or throws TypeError |
| Tokens.NewToken | nodejs/Token.js:6-19 | `new Token(base)` of the node and js variants (js/Token.js:4-17): the bytes of a sixteen-byte array or a token, random bytes for a falsy base, TypeError for anything else, hex strings included |
| Framer.CutHead | nodejs/NetWrapper.js:31-45 | one turn of the loop either slices off a message and leaves a strictly shorter tail of the cache, or stops, as corrupt only on a first byte of 255 |
| Framer.Frame | nodejs/NetWrapper.js:30-46 | the loop stops as corrupt only at a kept prefix starting with 255 |
| Framer.UintAtPrefix | nodejs/NetWrapper.js:27-33 | a length prefix that reads does not change when more bytes arrive behind it |
| Framer.CutAppend | nodejs/NetWrapper.js:27-45 | a message complete in the cache stays the same message when more bytes arrive |
| Framer.FrameAppend | nodejs/NetWrapper.js:24-47 | chunk boundaries do not matter: framing a + b delivers what framing a delivers and then what framing a's leftover followed by b delivers |
| Framer.FrameRest | nodejs/NetWrapper.js:30-46 | what the loop kept yields nothing more on its own |
| Framer.CutPrefixed | nodejs/NetWrapper.js:40-43 | a prefix that reads as the byte count of the body behind it slices off exactly that body |
| Framer.CutFramed | nodejs/NetWrapper.js:40-62 | the head of what `send` writes is the body, whatever follows |
| Framer.FrameFramed | nodejs/NetWrapper.js:24-63 | a body written by `send` is delivered whole, whatever follows it |
| Framer.FrameStream | nodejs/NetWrapper.js:24-63 | round trip: the loop delivers exactly the bodies sent, in order, and keeps nothing |
| Framer.CorruptHead | nodejs/NetWrapper.js:33-38 | a first byte of 255 stops the loop as corrupt with nothing delivered |
| Framer.NetWrapper.constructor | nodejs/NetWrapper.js:10-23 | a new wrapper has an empty cache and has delivered nothing |
| Framer.NetWrapper.Drain | nodejs/NetWrapper.js:30-46 | the `while (true)` loop delivers exactly the messages the framing of the cache gives and keeps its rest |
| Framer.NetWrapper.OnReadable | nodejs/NetWrapper.js:24-47 | as written: after any chunks, what was delivered is the framing of all bytes received; a malformed prefix throws TypeError, since `_protocolError` is not defined |
| Framer.NetWrapper.OnReadableClosing | nodejs/NetWrapper.js:24-47 | as intended: the same deliveries, and a malformed prefix ends the socket |
| Framer.NetWrapper.Send | nodejs/NetWrapper.js:58-63 | `send` writes the uint byte count of metadata and data, then both; a count past 2^53 - 1 throws TypeError before anything is written |
| Inflate.FixedAt | nodejs/inflateData.js:125-144 | readFloat and readToken succeed exactly when n bytes remain, take exactly those and fail as a plain Error otherwise |
| Inflate.ScalarsAtStep | nodejs/inflateData.js:215-224 | a run of n elements is the first element followed by the other n - 1 |
| Inflate.FieldsAtStep | nodejs/inflateData.js:245-258 | an element is its first field read and recorded under its name, then the other fields |
| Inflate.SimpleArrayAtStep | nodejs/inflateData.js:215-224 | a simple array is its uint count, then that many scalars |
| Inflate.RecordArrayAtStep | nodejs/inflateData.js:230-239 | an array of records is its uint count, then that many records |
| Inflate.RecordsAtStep | nodejs/inflateData.js:230-239 | a run of n records is the first record followed by the other n - 1 |
| Inflate.FieldsAtAdvance | nodejs/inflateData.js:245-258 | reading an element never moves backwards nor past the buffer's end |
| Inflate.UintAtAdvance | nodejs/inflateData.js:22-70 | a successful readUint consumes at least one byte and stays within the buffer |
| Inflate.ScalarAtAdvance | nodejs/inflateData.js:196-211 | a successful scalar read consumes at least one byte and stays within the buffer |
| Inflate.Reader.ReadLayout | nodejs/inflateData.js:22-61 | the bucket dispatch of readUint and its truncation and corruption checks read the layout at the offset, advancing over it |
| Inflate.Reader.Shifted | nodejs/inflateData.js:62-66 | the shift loop assembles the first byte's masked bits and each further byte shifted past the bits already read |
| Inflate.Reader.ReadUint | nodejs/inflateData.js:22-70 | readUint: at or past the end, or with fewer than k - 1 bytes after the first, RangeError; a first byte of 255 another Error; otherwise the value and the offset after it |
| Inflate.Reader.ReadInt | nodejs/inflateData.js:75-120 | readInt: every failure, truncation included, is a plain Error, 254 is refused, and the value is the layout rebiased by the bucket's minimum |
| Inflate.Reader.ReadFixed | nodejs/inflateData.js:125-144 | readFloat and readToken take exactly 4 or 16 bytes, or fail when fewer remain |
| Inflate.Reader.ReadCounted | nodejs/inflateData.js:149-174 | readString and readBuffer read a uint length and fail when fewer bytes remain than it declares |
| Inflate.Reader.ReadBoolean | nodejs/inflateData.js:179-192 | readBoolean accepts only the bytes 0 and 1 |
| Inflate.Reader.ReadSimpleElement | nodejs/inflateData.js:196-211 | dispatch on the type name; anything not named is read as a boolean |
| Inflate.Reader.ReadSimpleArray | nodejs/inflateData.js:215-224 | a uint count, then that many elements of the type |
| Inflate.Reader.ReadScalars | nodejs/inflateData.js:220-221 | the loop reads n elements in order, and the first failure stops it |
| Inflate.Reader.ReadArray | nodejs/inflateData.js:230-239 | a uint count, then that many records of the fields |
| Inflate.Reader.ReadElement | nodejs/inflateData.js:245-258 | the fields in format order, into a fresh record |
| Inflate.ScalarsJoin | nodejs/inflateData.js:220-221 | one turn of readSimpleArray's loop reads the first of the elements that remain |
| Inflate.RecordsJoin | nodejs/inflateData.js:235-236 | one turn of readArray's loop reads the first of the records that remain |
| Inflate.InflateData | nodejs/inflateData.js:7-13 | `inflateData` reads one element from offset 0 and fails unless the whole buffer is used |
| Deflate.Then | web/deflateData.js:14-25 | bytes written before a code that follows them: the result fails exactly when the later code does, with its error |
| Deflate.Elements | web/deflateData.js:44-56 | what `value.length` and `value[i]` see: a list its items, a byte array its bytes as numbers, a string its code units as one-character strings, a received string the code units of the text it was decoded to; any other value has no elements |
| Deflate.ScalarsReceived | web/deflateData.js:44-49 | the decoder gives back one value per item written |
| Deflate.UintIn | nodejs/inflateData.js:22-70 | a unsigned code inside a larger buffer reads back as its value and ends where the code ends |
| Deflate.IntIn | nodejs/inflateData.js:75-120 | a signed code inside a larger buffer reads back as its value |
| Deflate.CountedIn | nodejs/inflateData.js:149-174 | a length-prefixed byte string inside a buffer reads back as its bytes |
| Deflate.ScalarRoundTrip | web/deflateData.js:27-42 | each scalar fitInSimpleType writes reads back, through readSimpleElement of the same type, as the value the decoder represents it by, ending where it ends |
| Deflate.UintScalarRoundTrip | web/deflateData.js:28-29 | a uint field reads back as its value |
| Deflate.IntScalarRoundTrip | web/deflateData.js:30-31 | an int field reads back as its value |
| Deflate.FixedScalarRoundTrip | web/deflateData.js:32-35 | a float or token field reads back as its four or sixteen bytes |
| Deflate.StringScalarRoundTrip | web/deflateData.js:36-37 | a string field, whether a string being sent or one received and decoded, reads back as the UTF-8 bytes written for it |
| Deflate.BufferScalarRoundTrip | web/deflateData.js:38-39 | a Buffer field reads back as its bytes |
| Deflate.BooleanScalarRoundTrip | web/deflateData.js:40-41 | any other type is written with addBoolean and reads back as the value's truthiness |
| Deflate.ScalarsCodeCons | web/deflateData.js:47-48 | the code of a simple array's items is the first item's code then the others', and the first failure is the result |
| Deflate.ScalarsRoundTrip | web/deflateData.js:44-49 | a run of scalars reads back as the run of values received |
| Deflate.FieldsCodeCons | web/deflateData.js:16-24 | the fields are written in format order, each from `obj[name]`, and the first failure is the result |
| Deflate.FieldsCodeUndefined | web/deflateData.js:19-23 | reading a property of undefined throws TypeError, whatever the fields |
| Deflate.FieldsRoundTrip | web/deflateData.js:14-25 | the fields fitInFormat writes read back, through readElement, as each field's value in format order |
| Deflate.FieldRoundTrip | web/deflateData.js:18-23 | one field reads back as written, whether scalar, simple array or array of records |
| Deflate.SimpleArrayRoundTrip | web/deflateData.js:44-49 | a simple array reads back as its count and then its items |
| Deflate.RecordArrayRoundTrip | web/deflateData.js:51-56 | an array of records reads back as its count and then its records |
| Deflate.RecordsCodeCons | web/deflateData.js:54-55 | the code of an array of records is the first record's code then the others' |
| Deflate.RecordsRoundTrip | web/deflateData.js:51-56 | a run of records reads back as the run of records received |
| Deflate.DeflateInflate | web/deflateData.js:6-10 | round trip: what deflateData writes, inflateData reads back in the same format as every field of the format with the object's value under its name, the whole buffer used |
| Deflate.FitInSimpleType | web/deflateData.js:27-42 | fitInSimpleType writes the code ScalarCode gives the value for the type's `add` method, or fails with its error; numbers, booleans and undefined are read as `addUint`/`addInt` read them, other coercions are listed under Left out |
| Deflate.FitInString | web/Data.js:153-171 | `addString` on any value writes its code or fails as the string encoder does; a received string goes through the same code-unit loop as the text `toString("utf8")` decoded it to, so a character beyond U+FFFF throws URIError |
| Deflate.FitInSimpleArray | web/deflateData.js:44-49 | writes the count of the items and then each item as fitInSimpleType does; a string, sent or received, is iterated by its code units |
| Deflate.ResendString | web/Data.js:155-166 | a string received from the decoder and passed to `addString` again is written exactly as the original string was |
| Deflate.ResendPair | web/Data.js:155-166 | a received U+1F600 is two surrogate code units, so `addString` on it throws URIError |
| Deflate.ResendReplacement | web/Data.js:155-166 | a received byte that starts no character is written back as U+FFFD |
| Deflate.FitInScalars | web/deflateData.js:47-48 | the loop over the items writes each item's code in order, and the first failure stops it |
| Deflate.FitInScalarAt | web/deflateData.js:48 | one turn of that loop appends the code of item i to the codes of the items before it |
| Deflate.FitInArray | web/deflateData.js:51-56 | writes the count of the items and then each item as fitInFormat does |
| Deflate.FitInRecords | web/deflateData.js:54-55 | the loop over the records writes each record's fields in order |
| Deflate.FitInFormat | web/deflateData.js:14-25 | writes each field of the format with the value the object holds under its name |
| Deflate.FitInField | web/deflateData.js:18-23 | the branch on a field's kind writes that field's code |
| Deflate.FitsThen | web/deflateData.js:14-56 | writing a code and then what a later call writes gives the two codes in order |
| Deflate.DeflateData | web/deflateData.js:6-10 | `deflateData(obj, format)` gives the bytes of a new Data with the object fitted in, or what fitInFormat throws |
| Deflate.BooleanNumbers | web/Data.js:42-45 | `addUint` and `addInt` write true as 1 and false as 0 |
| Deflate.UndefinedNumbers | web/Data.js:42-45 | `addUint` and `addInt` throw on undefined |
| Expand.StripSpaces | nodejs/expand.js:23 | removing white space leaves no white space and never lengthens the text |
| Expand.StripSpacesIdempotent | nodejs/expand.js:23 | stripping twice is stripping once |
| Expand.StripSpacesAppend | nodejs/expand.js:23 | stripping works piece by piece |
| Expand.DecimalRoundTrip | nodejs/expand.js:36 | `Number` of the decimal digits of n gives n back |
| Expand.HeaderOf | nodejs/expand.js:26-28 | a header that matches has an id of at least 1, a name that is an identifier, and lies within the text |
| Expand.LeadingDigit | nodejs/expand.js:26 | digits that do not start with 0 denote a number of at least 1 |
| Expand.HeaderOfParts | nodejs/expand.js:26 | the header of `#`, digits without a leading 0 and an identifier, followed by anything that cannot continue the name, is the number and the name |
| Expand.CallClose | nodejs/expand.js:32 | the lazy `\(.*?\)` of a call stops at the first ')' that ends the text or is followed by `->`, and no earlier ')' qualifies |
| Expand.CallPartsRoundTrip | nodejs/expand.js:32-39 | the parts of `(args)->results` and of `(args)` are args and results (results "" when absent), for args without `->` |
| Expand.FirstClose | nodejs/expand.js:51 | the lazy group of an exception signature stops at the first ')' |
| Expand.TextAppend | nodejs/expand.js:97-131 | the text of two trees side by side is their texts in order |
| Expand.OpenedStaysNone | nodejs/expand.js:114-117 | once a ')' closes nothing, no continuation of the text is balanced |
| Expand.SavedText | nodejs/expand.js:100-105 | `saveCache` adds the cache to the level's text and never adds an empty string |
| Expand.OpenStep | nodejs/expand.js:108-113 | a '(' saves the cache and opens a new level, keeping the scan's invariant |
| Expand.CloseStep | nodejs/expand.js:114-120 | a ')' saves the cache and closes the level into its parent as a group |
| Expand.CloseNothing | nodejs/expand.js:114-117 | a ')' with no level open means the text is not balanced |
| Expand.CommaStep | nodejs/expand.js:121-122 | a ',' saves the cache and starts a new string, so empty segments are dropped |
| Expand.CharStep | nodejs/expand.js:123-124 | any other character goes to the cache |
| Expand.EndStep | nodejs/expand.js:126-128 | at the end the text is balanced exactly when no level is left open, and then the level holds all non-separator characters in order, in nonempty strings |
| Expand.ExpandParenthesis | nodejs/expand.js:97-131 | the loop gives exactly the tree of Parse, the scan read one character at a time; it fails with "Parenthesis mismatch" exactly when the parentheses are not balanced; otherwise the tree's strings are nonempty, hold no separator, and spell the text less its separators, in order |
| Expand.ScanOpen | nodejs/expand.js:108-113 | a '(' saves the cache and opens a new, empty level |
| Expand.ScanClose | nodejs/expand.js:114-120 | a ')' saves the cache and closes the level, as a group, into its parent |
| Expand.ScanComma | nodejs/expand.js:121-122 | a ',' saves the cache |
| Expand.ScanPlain | nodejs/expand.js:123-124 | characters that are not separators go to the cache in order |
| Expand.ScanUnclosed | nodejs/expand.js:126-128 | with a level open and no ')' left, the scan fails with "Parenthesis mismatch" |
| Expand.ScanRender | nodejs/expand.js:106-125 | reading the text of clean trees adds exactly those trees to the level, the last string still in the cache |
| Expand.ParseRender | nodejs/expand.js:97-131 | reading back the text clean trees are written as gives the trees back |
| Expand.TypeOf | nodejs/expand.js:75 | a type that matches is read from exactly its name |
| Expand.TypeOfName | nodejs/expand.js:75 | every type name is read back as its type |
| Expand.LetterIsInitial | nodejs/expand.js:78 | the letter a type adds to the format is the first character of its name |
| Expand.SimpleField | nodejs/expand.js:75-77 | `name:type` and `name[]:type` give a scalar field or simple array whose name is an identifier |
| Expand.ArrayHead | nodejs/expand.js:83 | the head of a record array is an identifier followed by `[]:` |
| Expand.FieldsError | nodejs/expand.js:71-84 | every failure of a level, a bare group or a string of neither shape, is "Invalid format" |
| Expand.FormatSnoc | nodejs/expand.js:78-87 | one more field appends its format: its letter, "(x)" for a simple array, "(" + inner + ")" for records |
| Expand.AfterStep | nodejs/expand.js:69-89 | one field read by the loop joins the fields already read |
| Expand.ExpandLevel | nodejs/expand.js:66-91 | expandLevel reads the fields of one level in order, consuming the group after a record array head; it fails only with "Invalid format", and the format it builds is the format string of the fields |
| Expand.TreesRoundTrip | nodejs/expand.js:66-91 | reading back the tree a list of named fields is written as gives the fields back |
| Expand.SingleFieldOf | nodejs/expand.js:75-78 | `name:type` is read as a scalar field of that type |
| Expand.SimpleArrayOf | nodejs/expand.js:75-78 | `name[]:type` is read as a simple array of that type |
| Expand.RecordHeadOf | nodejs/expand.js:75-83 | `name[]:` is not a simple field but the head of a record array named name |
| Expand.FieldsOfSimple | nodejs/expand.js:75-79 | a simple field's string in front of a level is read as that field, then the rest |
| Expand.FieldsOfRecord | nodejs/expand.js:83-88 | a record array's head and group in front of a level are read as that field, then the rest |
| Expand.ExpandFields | nodejs/expand.js:63-94 | gives exactly FieldList: the fields of the parsed tree with their format string; unbalanced text fails with "Parenthesis mismatch", and every failure is that or "Invalid format" |
| Expand.FieldListRoundTrip | nodejs/expand.js:63-94 | the text of named fields (`a:int,tags[]:string,list[]:(b:uint)`) reads back as those fields and their format string |
| Expand.FieldListEmpty | nodejs/expand.js:63-94 | an empty list has no fields and an empty format |
| Expand.FieldListSingle | nodejs/expand.js:75-78 | `a:int` is one int field `a` with format "i" |
| Expand.TreesClean | nodejs/expand.js:75-88 | the tree named fields are written as has nonempty strings without separators |
| Expand.ExpandCallSignature | nodejs/expand.js:21-41 | gives exactly CallSignatureOf: after white space is removed, no header or a tail that is neither `(args)` nor `->results` gives "Invalid format"; otherwise the header's id (at least 1) and name, and the fields and formats of the arguments and the results, an absent part giving no fields and "" |
| Expand.CallSignatureRoundTrip | nodejs/expand.js:21-41 | `#id name(args)->results`, with an id of at least 1, an identifier and named fields, reads back as that id, name, fields and formats |
| Expand.CallSignatureBare | nodejs/expand.js:32-39 | `#1f` is call 1 named f with no arguments and no results |
| Expand.ExpandExceptionSignature | nodejs/expand.js:46-60 | gives exactly ExceptionSignatureOf: the header's id and name and the fields of the text up to the first ')' (none when there is no group), whatever follows being ignored |
| Expand.ExceptionRoundTrip | nodejs/expand.js:46-60 | `#id name(args)` reads back as that id, name, fields and format when no argument is a record array |
| Expand.ArgsWithoutClose | nodejs/expand.js:51 | arguments holding no ')' are read whole |
| Expand.ExceptionRecordRefused | nodejs/expand.js:51-59 | `#1e(a[]:(b:int))` fails with "Parenthesis mismatch" as written, and is one record array when read up to the last ')' |
| Expand.LastClose | nodejs/expand.js:51 | the last ')' of the text: none follows it |
| Expand.ExpandNestedExceptionSignature | nodejs/expand.js:46-60 | corrected: gives exactly NestedExceptionSignatureOf, the arguments read up to the last ')' |
| Expand.NestedExceptionRoundTrip | nodejs/expand.js:46-60 | corrected: `#id name(args)` reads back as that id, name, fields and format, record arrays included |
| JsData.Written | js/Data.js:181-182 | how far an element loop gets: every element before it has a code, and the element there, if any, has none |
| JsData.ConcatStep | js/Data.js:181-182 | one turn of an element loop appends exactly the code of element i to the codes of the elements before it |
| JsData.WrittenStop | js/Data.js:181-182 | an element loop stops at the first element that throws |
| JsData.UintCodesAt | js/Data.js:181-182 | element i of `addUintArray` is written as addUint writes it |
| JsData.IntCodesAt | js/Data.js:191-192 | element i of `addIntArray` is written as addInt writes it |
| JsData.StringCodesAt | js/Data.js:221-222 | element i of `addStringArray` is written as addString writes it |
| JsData.FloatCodes | js/Data.js:201-202 | each float element is written as its own four bytes |
| JsData.TokenCodes | js/Data.js:211-212 | each token element is written as its sixteen bytes |
| JsData.Repeat | js/Data.js:181-192 | the letters an interrupted loop has added: n copies of one letter |
| JsData.PutCode | js/Data.js:182-192 | addUint or addInt on element k appends its code, or throws having written nothing |
| JsData.PutStringAt | js/Data.js:222 | addString on element k appends its code, or throws having written nothing |
| JsData.PutUints | js/Data.js:181-182 | the loop of `addUintArray` writes the codes of the elements up to the first that throws |
| JsData.PutInts | js/Data.js:191-192 | the loop of `addIntArray` writes the codes of the elements up to the first that throws |
| JsData.PutStrings | js/Data.js:221-222 | the loop of `addStringArray` succeeds exactly when every element encodes, and writes the codes up to the first that does not |
| JsData.PutFloats | js/Data.js:201-202 | the loop of `addFloatArray` writes four bytes per element |
| JsData.PutTokens | js/Data.js:211-212 | the loop of `addTokenArray` writes sixteen bytes per token |
| JsData.Data.constructor | js/Data.js:2-5 | a new Data has no bytes and the empty format; the buffer size of 256 is assumed, the browser `DataBuffer` not being part of this model |
| JsData.Data.AddUint | js/Data.js:25-65 | appends the code of u and the letter "u", or throws TypeError changing neither bytes nor format |
| JsData.Data.AddInt | js/Data.js:67-120 | appends the code of i and the letter "i", or throws TypeError changing neither |
| JsData.Data.AddFloat | js/Data.js:123-129 | appends four bytes and the letter "f" |
| JsData.Data.AddToken | js/Data.js:132-136 | appends sixteen bytes and the letter "t" |
| JsData.Data.AddString | js/Data.js:139-159 | appends the byte count and the UTF-8 bytes and only the letter "s", with no "u" from the count; a surrogate throws URIError and a failure changes nothing |
| JsData.Data.AddDataArray | js/Data.js:162-168 | appends the element count as a uint and the elements' bytes, and "(" + the array's format + ")" to the format |
| JsData.Data.AddData | js/Data.js:171-175 | concatenates both the bytes and the formats |
| JsData.Data.AddUintArray | js/Data.js:178-185 | appends the count then each element's code and "(u)" once; an element that throws leaves the count, the codes before it, and "u" per letter written, in the format |
| JsData.Data.AddIntArray | js/Data.js:188-195 | the same with addInt and "(i)" |
| JsData.Data.AddFloatArray | js/Data.js:198-205 | the count, four bytes per element and "(f)"; only the count can throw |
| JsData.Data.AddTokenArray | js/Data.js:208-215 | the count, sixteen bytes per token and "(t)"; only the count can throw |
| JsData.Data.AddStringArray | js/Data.js:218-225 | the same as addUintArray with addString and "(s)"; an element with a surrogate stops the loop |
| JsData.Data.ToBuffer | js/Data.js:228-230 | returns exactly the bytes written |
| JsData.DataArray.constructor | js/DataArray.js:2-6 | a new DataArray has no elements and the format given |
| JsData.DataArray.AddData | js/DataArray.js:9-15 | throws TypeError, changing nothing, unless the element's format is the array's; otherwise appends its bytes and counts one more element, the format unchanged |
| JsData.ToData | js/Data.js:8-22 | a Data is returned itself; a DataArray or string is written into a new Data; null or undefined give a new empty Data with format ""; anything else throws TypeError |
| JsData.NewException | js/Exception.js:4-17 | an Exception is made exactly when its data converts and its type is registered with that data's format string; it keeps the type and the converted data |
| Context.NameIsNotId | nodejs/Context.js:31-32 | a name that is an identifier never reads as the decimal key of an id, so the name and id keys of one dictionary cannot meet |
| Context.InsertLookup | nodejs/Context.js:31-32 | after registration the name and the id both find the entry, and every other key finds what it found before |
| Context.Context.constructor | nodejs/Context.js:5-10 | a new context has three empty dictionaries |
| Context.Context.RegisterServerCall | nodejs/Context.js:23-33 | a signature without a header throws "Invalid format"; a name already present throws and changes nothing; otherwise the expanded signature and callback go under the name and the id; the other dictionaries do not change, and every id stays at least 1 |
| Context.Context.RegisterClientCall | nodejs/Context.js:39-49 | the same on the dictionary of calls this side makes; web/Context.js:34-43 keeps no callback |
| Context.Context.RegisterException | nodejs/Context.js:52-61 | corrected to read the arguments up to the last ')' (see Findings): the same for exceptions, where the names "timeout" and "closed" also throw |
| Protocol.Meta | nodejs/Connection.js:102 | the head of a message exists exactly when each of its uints is one addUint accepts |
| Protocol.Classify | nodejs/Connection.js:207-238 | a message read as a call has a type other than 0, and so has one read as an exception |
| Protocol.MetaTwo | nodejs/Connection.js:102 | the head of a call is the code of its type followed by the code of its sequence id |
| Protocol.MetaThree | nodejs/Connection.js:377 | the head of an answer is the codes of 0, of the sequence id and of the exception type |
| Protocol.ClassifyReads | nodejs/Connection.js:211-237 | once the reads of the head are known, a nonzero type is a call and otherwise the third uint tells an exception from a return |
| Protocol.ClassifyCall | nodejs/Connection.js:207-223 | a call message reads back as that call, with its type, its sequence id and its arguments |
| Protocol.CodesOf | nodejs/Connection.js:102 | what addUint writes reads back as its uint wherever it stands |
| Protocol.CallShape | nodejs/Connection.js:207-223 | the codes of a type other than 0 and of a sequence id, then arguments, read as that call |
| Protocol.ClassifyAnswer | nodejs/Connection.js:224-236 | an answer message reads back as the return (exception type 0) or the exception for that sequence id, with its data |
| Protocol.AnswerShape | nodejs/Connection.js:224-236 | the codes of 0, a sequence id and an exception type, then data, read as that answer |
| Protocol.Issue | nodejs/Connection.js:102-117 | storing a call under the next sequence id keeps the ledger of pending and settled calls and loses no call |
| Protocol.Settle | nodejs/Connection.js:315-321 | taking a pending call out of the table and recording its outcome keeps the ledger and loses no call |
| Protocol.Drop | nodejs/Connection.js:298-299 | taking a pending call out of the table without settling it keeps the ledger |
| Protocol.DropLoses | nodejs/Connection.js:298-313 | a call taken out of the table without being settled is lost: no later close or timer settles it |
| Protocol.Closing | nodejs/Connection.js:195-203 | the close handler settles calls of the table only, in increasing sequence order, each as closed, notifying exactly those with an exception callback |
| Protocol.ClosingSettlesAll | nodejs/Connection.js:185-204 | the close handler settles every pending call, once |
| Protocol.SettleAll | nodejs/Connection.js:185-204 | settling every pending call at once loses nothing |
| Protocol.CloseAll | nodejs/Connection.js:185-204 | closing keeps the ledger of an emptied table and, when no call was lost before, leaves every call stored settled |
| Protocol.CloseTable | nodejs/Connection.js:195-203 | the loop over the table clears the timer of each pending call and settles it as closed, in increasing order |
| Protocol.Registry.constructor | nodejs/Connection.js:127-132 | the static registries start empty |
| Protocol.Registry.RegisterServerCall | nodejs/Connection.js:43-51 | an id that is not an integer of at least 1 throws TypeError; an id already present throws another Error; otherwise the call type goes under the id and the id is returned; nothing else changes, and every id stays at least 1 |
| Protocol.Registry.RegisterClientCall | nodejs/Connection.js:54-62 | the same on the calls this side makes (js/Connection.js:22-49 registers the same way) |
| Protocol.Registry.RegisterException | nodejs/Connection.js:65-72 | the same for exception formats |
| NodeSession.Refusal | nodejs/Connection.js:90-98 | `sendCall` goes ahead exactly when the connection is open, the type is registered for this side and the data has the call's argument format (and the type can be coded) |
| NodeSession.InitialValid | nodejs/Connection.js:6-30 | a new connection is open, has no pending call, has written nothing, keeps the invariant and has lost no call |
| NodeSession.SendCallKeeps | nodejs/Connection.js:86-118 | `sendCall` keeps the invariant and loses no call |
| NodeSession.SendCallStopped | nodejs/Connection.js:90-98 | a call refused before a sequence id is taken throws and changes nothing |
| NodeSession.SendCallUncoded | nodejs/Connection.js:101-103 | a call whose head or length cannot be coded throws after the sequence id was taken |
| NodeSession.SendCallStored | nodejs/Connection.js:101-117 | an accepted call writes its frame and is stored under the new sequence id |
| NodeSession.TakeIdKeeps | nodejs/Connection.js:102 | taking a sequence id keeps the invariant and loses no call |
| NodeSession.StoreKeeps | nodejs/Connection.js:110-117 | storing the call with its timer (none for a delay of 0, 60000 by default) keeps the invariant and loses no call |
| NodeSession.TimeoutKeeps | nodejs/Connection.js:135-147 | the timeout callback settles a call still pending as a timeout, keeping the invariant and losing no call |
| NodeSession.CloseKeeps | nodejs/Connection.js:185-204 | closing settles exactly the calls that were pending, once each; when no call was lost before, every call ever sent is settled |
| NodeSession.ResolveKeeps | nodejs/Connection.js:315-321 | a pending call leaving the table with its outcome keeps the invariant and loses no call |
| NodeSession.ProcessCallKeeps | nodejs/Connection.js:241-292 | a received call takes the next sequence id received and keeps the invariant |
| NodeSession.ProcessCallCases | nodejs/Connection.js:241-266 | a received call is either a protocol error (out of sequence, unknown type, arguments that do not decode) or one request handed to the application under the new sequence id |
| NodeSession.ReceiveIdKeeps | nodejs/Connection.js:244 | every request handed over so far has a sequence id below the one just received |
| NodeSession.RequestKeeps | nodejs/Connection.js:266-291 | handing a request to the application keeps the invariant |
| NodeSession.ProcessReturnKeptKeeps | nodejs/Connection.js:295-322 | the return handler, with the call kept until its data decodes, keeps the invariant and loses no call |
| NodeSession.ProcessExceptionKeptKeeps | nodejs/Connection.js:325-364 | the exception handler, with the call kept until the exception is accepted, keeps the invariant and loses no call |
| NodeSession.DispatchKeeps | nodejs/Connection.js:207-238 | corrected (the return and exception handlers keep the pending entry until the answer is accepted, and the frame is read with the corrected `readUint`; see Findings): every message, call, return, exception or unreadable, keeps the invariant and loses no call |
| NodeSession.ProcessKeeps | nodejs/Connection.js:150-179 | corrected as DispatchKeeps: processing the messages cut from the stream keeps the invariant and loses no call |
| NodeSession.ProcessReturnLoses | nodejs/Connection.js:298-313 | as written, a return whose data does not decode takes the call out of the table and ends the socket without settling it: the call is lost |
| NodeSession.ProcessReturnKeeps | nodejs/Connection.js:298-313 | corrected, such a call stays pending and the close settles it later |
| NodeSession.ProcessExceptionLoses | nodejs/Connection.js:328-355 | as written, an exception of a type not listed for the call, not registered, or whose data does not decode, loses the call |
| NodeSession.ProcessExceptionKeeps | nodejs/Connection.js:328-355 | corrected, such a call stays pending |
| NodeSession.AnswerKeeps | nodejs/Connection.js:270-288 | answering keeps the invariant and loses no call |
| NodeSession.AnswerOnceKeeps | nodejs/Connection.js:270-288 | the corrected answer keeps the invariant and loses no call |
| NodeSession.OutputKeeps | nodejs/Connection.js:106-108 | writing to the socket keeps the invariant |
| NodeSession.MarkKeeps | nodejs/Connection.js:286 | marking a request answered keeps the invariant |
| NodeSession.OneFrame | nodejs/Connection.js:103-108 | the three writes of one message make one frame that the reader cuts back as that message alone |
| NodeSession.CallOnWire | nodejs/Connection.js:102-108 | a call message written to the stream reads back on the other side as that call |
| NodeSession.AnswerOnWire | nodejs/Connection.js:372-384 | an answer message written to the stream reads back as that return or exception |
| NodeSession.SendCallSent | nodejs/Connection.js:101-117 | a `sendCall` that returns writes one frame of the type, the new sequence id and the data, and stores the call under that id |
| NodeSession.SendCallWire | nodejs/Connection.js:86-118 | a call `sendCall` accepts goes out as one frame that the other side reads as a call of that type, with the new sequence id and the data's bytes, and the call waits under that id |
| NodeSession.SendCallRefused | nodejs/Connection.js:90-103 | a refused call changes nothing but, when refused after the checks, the sequence id taken |
| NodeSession.AnswerSent | nodejs/Connection.js:372-384 | an answer that is sent writes one frame with 0, the call's sequence id, the exception type and the data |
| NodeSession.AnswerWire | nodejs/Connection.js:372-384 | an answer goes out as one frame the other side reads as the return or exception for the call's sequence id |
| NodeSession.AnswerTwice | nodejs/Connection.js:270-288 | as written, a call can be answered twice and both answers are sent |
| NodeSession.AnswerOnceOnly | nodejs/Connection.js:270-288 | corrected, after an answer was sent every further answer throws "Answer already sent" |
| NodeSession.CallDelivered | nodejs/Connection.js:207-266 | a call message in sequence, of a type this side receives, whose arguments decode, is handed to the application with those arguments and nothing else changes |
| NodeSession.CallDispatched | nodejs/Connection.js:241-266 | the same for a call already read |
| NodeSession.ReturnDelivered | nodejs/Connection.js:295-322 | a return for a pending call whose data decodes settles that call with that data and no other |
| NodeSession.FrameStep | nodejs/Connection.js:150-179 | cutting one message from the front of the cache and processing it first is processing the whole framing |
| NodeSession.ReceiveKeeps | nodejs/Connection.js:150-179 | corrected as DispatchKeeps: receiving a chunk keeps the invariant and loses no call |
| NodeSession.ProcessAppend | nodejs/Connection.js:150-179 | processing a stream in two parts is processing it whole |
| NodeSession.DispatchEnded | nodejs/Connection.js:367-369 | whether the socket was ended changes nothing else a message does |
| NodeSession.ProcessEnded | nodejs/Connection.js:367-369 | the same for a stream of messages |
| NodeSession.ReceiveChunks | nodejs/Connection.js:150-179 | corrected frame cutting (see Findings): two chunks received one after the other have the effect of the two received at once |
| NodeSession.ReceiveStream | nodejs/Connection.js:150-179 | corrected frame cutting (see Findings): a stream of framed messages received from an empty cache has each message processed in order and leaves nothing behind |
| NodeConnection.Connection.constructor | nodejs/Connection.js:6-30 | a new connection with an empty cache in the initial state |
| NodeConnection.Connection.SendCall | nodejs/Connection.js:86-118 | `sendCall` on the object does what the session model says and keeps the invariant |
| NodeConnection.Connection.StoreCall | nodejs/Connection.js:110-117 | the call enters the table with its timer |
| NodeConnection.Connection.Timeout | nodejs/Connection.js:135-147 | the timeout callback, keeping the invariant |
| NodeConnection.Connection.OnClose | nodejs/Connection.js:185-204 | the close handler walks the table in increasing order and does what the session model says, keeping the invariant |
| NodeConnection.Connection.ProcessCall | nodejs/Connection.js:241-292 | `_processCall` on the object |
| NodeConnection.Connection.ProcessReturn | nodejs/Connection.js:295-322 | `_processReturn`, corrected to keep the call until its data decodes |
| NodeConnection.Connection.ProcessException | nodejs/Connection.js:325-364 | `_processException`, corrected the same way |
| NodeConnection.Connection.ProcessMessage | nodejs/Connection.js:207-238 | corrected as NodeSession.DispatchKeeps: `_processMessage` on the object |
| NodeConnection.Connection.OnReadable | nodejs/Connection.js:150-179 | as written, a chunk is cached and the connection ends with a protocol error, since the length is never read |
| NodeConnection.Connection.OnReadableFramed | nodejs/Connection.js:150-179 | corrected, every whole frame in the cache is cut and processed in order and the rest is kept, keeping the invariant |
| NodeConnection.Connection.Answer | nodejs/Connection.js:270-288 | `answer(obj)` as written, keeping the invariant |
| NodeConnection.Connection.AnswerOnce | nodejs/Connection.js:270-288 | `answer(obj)` with the flag set, keeping the invariant |
| WebSession.Lookup | web/Connection.js:57-62 | `call` goes ahead exactly when the connection is open and the name is a registered client call, and then uses that call; a connection not open throws "The connection isn't opened" |
| WebSession.InitialValid | web/Connection.js:6-33 | a new connection is not open, has no pending call, has sent nothing, keeps the invariant and has lost no call |
| WebSession.OpenKeeps | web/Connection.js:24-29 | the open listener makes the connection ready and keeps the invariant |
| WebSession.CallKeeps | web/Connection.js:53-79 | `call` keeps the invariant and loses no call |
| WebSession.CallUncoded | web/Connection.js:63-66 | a call whose data or head cannot be coded throws; only the sequence id may have been taken |
| WebSession.CallStored | web/Connection.js:57-78 | an accepted call sends the head (registered id, new sequence id) followed by the deflated data, and is stored under the new sequence id with its timer |
| WebSession.TakeIdKeeps | web/Connection.js:66 | taking a sequence id keeps the invariant and loses no call |
| WebSession.StoreKeeps | web/Connection.js:71-78 | storing the call with its timer (none for a delay of 0, 60000 by default) keeps the invariant and loses no call |
| WebSession.TimeoutKeeps | web/Connection.js:87-95 | the timeout callback settles a call still pending with the exception "timeout", keeping the invariant and losing no call |
| WebSession.CloseKeeps | web/Connection.js:98-118 | closing settles exactly the calls that were pending, once each, with the exception "closed"; when no call was lost before, every call ever sent is settled |
| WebSession.ResolveKeeps | web/Connection.js:226-232 | a pending call leaving the table with its outcome keeps the invariant and loses no call |
| WebSession.ReceiveIdKeeps | web/Connection.js:157 | every request handed over so far has a sequence id below the one just received |
| WebSession.ProcessCallKeeps | web/Connection.js:153-203 | a received call takes the next sequence id received and keeps the invariant |
| WebSession.ProcessCallCases | web/Connection.js:153-203 | a received call is a protocol error (out of sequence, unknown id, arguments that do not decode), throws (no callback registered) or hands one request under the new sequence id to the callback |
| WebSession.RequestKeeps | web/Connection.js:200-202 | handing a request to its callback keeps the invariant |
| WebSession.ProcessReturnKeptKeeps | web/Connection.js:206-233 | the return handler, with the call kept until its data decodes, keeps the invariant and loses no call |
| WebSession.ProcessExceptionKeptKeeps | web/Connection.js:236-270 | the exception handler, with the call kept until the exception is accepted, keeps the invariant and loses no call |
| WebSession.DispatchKeeps | web/Connection.js:121-150 | corrected (the return and exception handlers keep the pending entry until the answer is accepted; see Findings): every message keeps the invariant and loses no call |
| WebSession.ProcessReturnLoses | web/Connection.js:209-224 | as written, a return whose data does not decode takes the call out of the table and closes the socket without settling it: the call is lost |
| WebSession.ProcessReturnKeeps | web/Connection.js:209-224 | corrected, such a call stays pending and the close settles it later |
| WebSession.ProcessExceptionLoses | web/Connection.js:239-261 | as written, an exception whose id is not registered or whose data does not decode loses the call |
| WebSession.ProcessExceptionKeeps | web/Connection.js:239-261 | corrected, such a call stays pending |
| WebSession.AnswerKeeps | web/Connection.js:183-198 | answering keeps the invariant and loses no call |
| WebSession.CallWire | web/Connection.js:53-79 | a call `call` accepts goes out as one message that the other side reads as a call of the registered id, with the new sequence id and the deflated data, and the call waits under that id |
| WebSession.CallRefused | web/Connection.js:57-63 | a refused call changes nothing but the sequence id taken; a connection not open refuses every call with "The connection isn't opened" |
| WebSession.AnswerWire | web/Connection.js:278-283 | an answer goes out as one message the other side reads as the return, or the exception of the registered id, for the call's sequence id |
| WebSession.AnswerOnceOnly | web/Connection.js:182-198 | after an answer was sent, every further answer throws "Answer already sent" |
| WebSession.AnswerAfterClose | web/Connection.js:187-188 | once the socket has closed, an answer not yet sent returns false and sends nothing |
| WebSession.CallDelivered | web/Connection.js:121-203 | a call message in sequence, of an id registered with a callback, whose arguments decode, is handed to that callback with those arguments and nothing else changes |
| WebSession.ReturnDelivered | web/Connection.js:206-233 | a return for a pending call whose data decodes settles that call with that data and no other |
| WebSession.HalfHeadSkipsId | web/Connection.js:127-159 | a message whose type reads but whose sequence id does not still takes a sequence id received and closes the socket, so the next call in sequence is refused as out of sequence |
| WebConnection.Connection.constructor | web/Connection.js:6-33 | a new connection in the initial state |
| WebConnection.Connection.OnOpen | web/Connection.js:24-29 | the open listener, keeping the invariant |
| WebConnection.Connection.Call | web/Connection.js:53-79 | `call` on the object does what the session model says and keeps the invariant |
| WebConnection.Connection.StoreCall | web/Connection.js:71-78 | the call enters the table with its timer |
| WebConnection.Connection.Timeout | web/Connection.js:87-95 | the timeout callback, keeping the invariant |
| WebConnection.Connection.OnClose | web/Connection.js:98-118 | the close handler walks the table in increasing order and does what the session model says, keeping the invariant |
| WebConnection.Connection.ProcessCall | web/Connection.js:153-203 | `_processCall` on the object |
| WebConnection.Connection.ProcessReturn | web/Connection.js:206-233 | `_processReturn`, corrected to keep the call until its data decodes |
| WebConnection.Connection.ProcessException | web/Connection.js:236-270 | `_processException`, corrected the same way |
| WebConnection.Connection.OnMessage | web/Connection.js:121-150 | corrected as WebSession.DispatchKeeps: `_onmessage` on the object, keeping the invariant |
| WebConnection.Connection.Answer | web/Connection.js:183-198 | `answer(obj)`, keeping the invariant |
| JsSession.Refusal | js/Connection.js:62-67 | `sendCall` goes ahead exactly when the type is a registered client call and the data has its argument format (and the type can be coded); an unknown type throws "Invalid call type" |
| JsSession.InitialValid | js/Connection.js:3-19 | a new connection has no pending call, has sent nothing, keeps the invariant and has lost no call |
| JsSession.SendCallKeeps | js/Connection.js:58-85 | corrected (the frame is sent as its three parts in order; see Findings): `sendCall` keeps the invariant and loses no call |
| JsSession.SendCallStored | js/Connection.js:70-84 | corrected as SendCallKeeps: an accepted call sends one message and is stored under the new sequence id with its return format and its timer |
| JsSession.TakeIdKeeps | js/Connection.js:71 | taking a sequence id keeps the invariant and loses no call |
| JsSession.StoreKeeps | js/Connection.js:77-84 | storing the call with its timer (none for a delay of 0, 60000 by default) keeps the invariant and loses no call |
| JsSession.TimeoutKeeps | js/Connection.js:98-110 | the timeout callback settles a call still pending with exception type 0, keeping the invariant and losing no call |
| JsSession.CloseKeeps | js/Connection.js:117-133 | closing settles exactly the calls that were pending, once each, with type -1; when no call was lost before, every call ever sent is settled |
| JsSession.ResolveKeeps | js/Connection.js:228-235 | a pending call leaving the table with its outcome keeps the invariant and loses no call |
| JsSession.DispatchKeeps | js/Connection.js:136-164 | every message keeps the invariant and loses no call |
| JsSession.AnswerRefusedKept | js/Connection.js:209-273 | a return or exception that is refused leaves the call pending and unsettled, since the entry is deleted only after the callback |
| JsSession.AnswerKeeps | js/Connection.js:189-202 | answering keeps the invariant and loses no call |
| JsSession.AnswerOnceOnly | js/Connection.js:188-202 | after an answer was sent, every further answer throws "Answer already sent" |
| JsSession.SendCallWire | js/Connection.js:58-85 | with the three parts sent as one frame, a call `sendCall` accepts reads back on the server as a call of that type with the new sequence id and the data's bytes, and waits under that id |
| JsSession.AnswerWire | js/Connection.js:281-291 | with the three parts sent as one frame, an answer reads back as the return or the exception for the sequence id the call came with |
| JsSession.CallDelivered | js/Connection.js:136-206 | a call of a known type whose arguments decode is handed to the application under the sequence id it came with, unchecked: the same message twice is handed over twice |
| JsSession.ReturnDelivered | js/Connection.js:209-236 | a return for a pending call whose data decodes settles that call with that data and no other |
| JsSession.Packed | js/Connection.js:75 | what is sent as written is three bytes, one per part, each the part's single byte or else 0 |
| JsSession.PackedLosesCall | js/Connection.js:71-75 | as written, the middle byte of every call sent is 0 and the bytes are never the frame of the call |
| JsSession.UintOneByte | js/Connection.js:71 | the first byte of the code of a nonzero uint is not 0 |
| JsSession.SmallUint | js/Connection.js:71-72 | a uint below 128 is coded as its own byte |
| JsSession.PackedFirstCall | js/Connection.js:71-75 | the first call of type 1 with no data goes out as [2, 0, 0] instead of [2, 1, 1], and the server cuts it as the message [0, 0] |
| JsSession.PackedFirstCallReads | js/Connection.js:136-159 | that message reads as a return for sequence id 0 whose exception type does not read |
| JsSession.ZeroZeroReads | js/Connection.js:143-152 | the reads of [0, 0]: 0, then 0, then nothing left |
| JsConnection.Connection.constructor | js/Connection.js:3-19 | a new connection in the initial state |
| JsConnection.Connection.SendCall | js/Connection.js:58-85 | corrected as JsSession.SendCallKeeps: `sendCall` on the object does what the session model says and keeps the invariant |
| JsConnection.Connection.StoreCall | js/Connection.js:77-84 | the call enters the table with its timer |
| JsConnection.Connection.Timeout | js/Connection.js:98-110 | the timeout callback, keeping the invariant |
| JsConnection.Connection.OnClose | js/Connection.js:117-133 | the close handler walks the table in increasing order, then empties it, keeping the invariant |
| JsConnection.Connection.ProcessCall | js/Connection.js:167-206 | `_processCall` on the object |
| JsConnection.Connection.ProcessReturn | js/Connection.js:209-236 | `_processReturn` on the object |
| JsConnection.Connection.ProcessException | js/Connection.js:239-273 | `_processException` on the object |
| JsConnection.Connection.OnMessage | js/Connection.js:136-164 | `_processMessage` on the object, keeping the invariant |
| JsConnection.Connection.Answer | js/Connection.js:189-202 | corrected (the answer frame is sent as its three parts in order; see Findings): `answer(obj)`, keeping the invariant |

## Left out

- Sockets and WebSockets are not modelled. A connection's output is a byte sequence (Node.js) or a sequence of sent messages (browser). `_protocolError` and `close` only set a flag, and the connection goes on until the close event, which is the `Close` handler.
- `send` on a WebSocket that is not open is not modelled, nor the errors it raises.
- Timers are not modelled as clocks. `setTimeout` records the delay under the call's sequence id, `clearTimeout`/`clearInterval` remove it, and firing is the `Timeout` handler, which may run at any point.
- Application callbacks are not modelled as code. The `call` event, `onreturn`, `onexception` and the web callbacks become records (`Request`, `Settlement`) appended to the state. A callback that throws is not modelled, so the js `try` that turns such a throw into a protocol error is not modelled either.
- `emit("close")`, `onclose`/`onopen` user hooks and `_onerror` are left out: they only notify the application.
- The sequence counters are unbounded integers. The source keeps them in JavaScript numbers and never wraps them.
- JsSession: the js connection never updates `_lastReceivedID`, so the model keeps no received counter for it. Incoming js calls are not sequence-checked.
- Floats are not modelled as arithmetic. `addFloat` writes the four bytes of a binary32 given as bits. The rounding of `setFloat32`/`writeFloatLE` from a JavaScript number is the parameter `single`.
- The random bytes of a new token are a parameter: `Math.random` is not modelled.
- JavaScript numbers past 2^53 are exact in the model. `readUint` on an 8-byte code can return up to 2^56 - 1, which JavaScript would round, while `addUint` refuses anything past 2^53 - 1.
- Emit.AddInt: it follows the code's test |i| < 2^48. The least value of the 7-byte bucket, -2^48, decodes but cannot be written (Emit.ValidIntHasCode states the gap).
- `inflateFormat.js` is not part of this model. The registries of the Node.js and js connections take formats already expanded, and `expand.dfy` models the signature parser.
- `web/inflateData.js` and `web/expand.js` are not part of this model. The browser connection uses the Node.js decoder and parser, which they mirror.
- The js `DataBuffer` is not part of this model. The js `Data` uses the modelled `DataBuffer`.
- Transport wiring is not modelled, being I/O: `WSWrapper`, the socket listeners of `NetWrapper`, `wrapSocket`/`wrapServer`/`createWSServer` and `connect`.
- The relays `Gate.js`, `createGate.js` and `websocket-gate` are not modelled. They repeat the framing loop modelled in `framer.dfy`.
- `nodejs/Exception.js` is not modelled: it holds two fields and no logic. The example programs and `index.js` files are not modelled either.
- Deflate.FitInSimpleType: `addUint`/`addInt` (web/Data.js:44 and :87) compare loosely and use `&`, `%` and `>>`, so they also accept a numeric string (`"5"`, `""`), an array or byte array of one numeric item (`[7]`, `[]`) and a float field's value that is an integer; the model reads only numbers, booleans and undefined and refuses the rest with TypeError, because JavaScript's string-to-number conversion is not modelled.
- Deflate.DeflateData: inherits the same gap through every uint and int field it writes.
- NodeData.Data.ToBuffer: returns a copy of the bytes written, while `slice` on a Node.js Buffer returns a view that shares the Data's buffer; writes through that view, and later writes to the Data seen through it, are not modelled.
- WebData.Data.ToBuffer: the same for `subarray` in the browser `Data`.
- JsData.Data.ToBuffer: the same for `subarray` in the js `Data`.
- `js/inflateData.js` is not part of this model. The js connection's reads of uints and of data are modelled with the Node.js decoder.
- JsSession.Dispatch: js/Connection.js:143-152 reads the head with `inflateData.readUint(message, offset, aux)` of the browser decoder, which is not part of this model; the model assumes that call pushes the uint onto `aux`, returns the offset after it and throws where the Node.js `readUint(state)` fails, and reads the head with the Node.js reader.
- JsSession.DispatchKeeps: rests on the same assumption about the browser `readUint`.
- JsConnection.Connection.OnMessage: the same assumption; and js/Connection.js:18 installs `_processMessage` as `webSocket.onmessage`, so there `this` is the WebSocket, while the model runs the handler on the connection, as `_onclose` reaches it through `this.that`.
- JsConnection.Connection.OnClose: js/Connection.js:120 and :205 call `emit`, which the js `Connection` never defines; the model assumes an event emitter is mixed into it elsewhere and leaves out the `close` and `call` events themselves.
- The C# implementation in the repository is not part of this model.

## Findings

| source | as written | input that shows it | evidently intended | confidence | as-written member | corrected member |
|---|---|---|---|---|---|---|
| nodejs/Connection.js:286 | `answer = true` replaces the `answer` function instead of setting `answered`, so the guard at 272-273 never fires | any request answered twice: the second answer is accepted and a second frame is written | `answered = true`: a second answer throws "Answer already sent", as web/Connection.js:196 and js/Connection.js:201 do | high, not executed | NodeSession.AnswerTwice | NodeSession.AnswerOnceOnly |
| nodejs/Connection.js:164 | `readUint(buffer, offset, out)` is called, here and at lines 213-214, on a `readUint(state)` that takes a `{buffer, offset}` state, so every read throws | any chunk, for example the frame [2, 1, 1] of call type 1 with sequence id 1, ends the connection with a protocol error | read the length at the start of the cache and cut every whole frame | high, not executed | NodeConnection.Connection.OnReadable | NodeConnection.Connection.OnReadableFramed |
| nodejs/NetWrapper.js:37-38 | a malformed length calls `that._protocolError`, which `NetWrapper` never defines | a chunk starting with byte 255: the listener throws TypeError instead of ending the socket | end the socket as a protocol error | high, not executed | Framer.NetWrapper.OnReadable | Framer.NetWrapper.OnReadableClosing |
| nodejs/Connection.js:298-313 | the pending entry is deleted before the return data is decoded | a return for a pending call whose data does not match the call's return format: the call leaves the table unsettled, so neither its timer nor the close reports it | keep the entry until the data decodes, as js/Connection.js:209-236 does | medium, not executed | NodeSession.ProcessReturnLoses | NodeSession.ProcessReturnKeeps |
| nodejs/Connection.js:328-355 | the same for exceptions, before the exception type is checked | an exception of a type not listed for the call | keep the entry until the exception is accepted | medium, not executed | NodeSession.ProcessExceptionLoses | NodeSession.ProcessExceptionKeeps |
| web/Connection.js:209-224 | the pending entry is deleted before the return data is decoded | a return whose data does not decode with the call's output format | keep the entry until the data decodes | medium, not executed | WebSession.ProcessReturnLoses | WebSession.ProcessReturnKeeps |
| web/Connection.js:239-261 | the same for exceptions, before the exception id is looked up | an exception whose id is not registered in the context | keep the entry until the exception is accepted | medium, not executed | WebSession.ProcessExceptionLoses | WebSession.ProcessExceptionKeeps |
| js/Connection.js:75 | `new Uint8Array([length, meta, data])`, here and at line 290, turns each part into one number, so three bytes are sent: a part of one byte gives that byte and any other part gives 0 | the first call of type 1 with no data is sent as [2, 0, 0] instead of [2, 1, 1]; the server reads it as a return for sequence id 0 | send the three parts one after the other as one frame | high, not executed | JsSession.PackedLosesCall, JsSession.PackedFirstCall | JsSession.SendCallWire |
| nodejs/expand.js:51 | the lazy `(\(.*?\))?` stops at the first ')', so the arguments of a record array lose their closing parenthesis | `#1e(a[]:(b:int))`: the arguments become `a[]:(b:int` and expanding them throws "Parenthesis mismatch", so no exception can carry a record array | the arguments run to the last ')', as the syntax `{name}[]:({field})` shared with calls allows | medium, not executed | Expand.ExceptionRecordRefused | Expand.NestedExceptionRoundTrip |
