# tevclient in Dafny

A model of the client library of tev, the image viewer. The library is a C++ client for tev's
remote-control protocol. A `Client` holds one TCP connection to a tev server. It sends commands
to the server:
- open, reload, close, create and update an image;
- draw vector graphics over an image.

Each command is a byte header built in an `OStream`. `sendMessage` sends it as one
length-prefixed frame, followed by an optional payload. The model covers these parts:
- **`Wire`**: bytes, little-endian scalars, NUL-terminated strings, and the `OStream` class
  with its `operator<<` overloads.
- **`VgCommands`**: the vector-graphics command type from `tevclient.h` and its factory
  functions.
- **`Packets`**: the packet tags, the exact byte layout of every header, and the frame. It also
  has a reader for each layout, which is the server's view of the bytes. Round-trip lemmas use
  these readers to show that every header the client writes reads back field by field.
- **`Layout`**: the default channel names, offsets and strides of `updateImage`, and the
  strided buffer length it demands. The length uses the source's 32-bit `width * height` and
  its unsigned 64-bit arithmetic, wrap-around included.
- **`Errors`**: the error codes and `errorString`.
- **`Instances`**: the process-wide instance counter. Platform start-up runs when the counter
  leaves 0, and clean-up when it returns to 0.
- **`Transport`**: the operating system as an abstract machine. It covers name resolution,
  `socket`, `connect`, `close` and `send`. It records every call and the bytes the server
  received.
- **`Connection`**: every operation of `Client::Impl` and every command builder as a pure
  state transition. This is a function from the client state and the machine state to the new
  states and the returned `Error`. The lemmas about these transitions state the behaviour.
- **`TevClient`**: the imperative `Client` class. It has the fields of `Client::Impl` and
  builds headers with `OStream` loops. Each method's `ensures` says it performs exactly the
  transition `Connection` defines for it.

The model keeps the library's own behaviour, including the parts that look accidental:
- A `bool` is written as byte 0 for `true` and 1 for `false`.
- `closeImage` writes no focus byte.
- `disconnect` closes the socket but leaves the descriptor in place. So the client still
  counts as connected, and `connect` does nothing. In the model the next send fails on the closed
  descriptor, because the model never hands a closed descriptor number out again. On a real
  system the number can be reused by the next socket or file the process opens, and the client's
  frames would then go there.
- `connect` returns the last error. If an earlier address failed, that is a `SocketError` even
  when a later address connected.
- `updateImage` computes `width * height` in 32 bits and `pixelCount - 1` in 64 bits. For an
  empty region with two default channels it demands 2^64 - 1 floats.
- The frame length is truncated to 32 bits and always counts `extraLen`, even when no payload
  follows.
- A failed platform start-up still leaves the instance counter incremented.
- A vector-graphics command's type byte is written, but its `dataCount` is not.

## Model

| member | source | states |
|---|---|---|
| Wire.LeRoundTrip | src/tevclient.cpp:145-151 | a scalar written in `size` little-endian bytes reads back as the same value |
| Wire.FromLeRoundTrip | src/tevclient.cpp:145-151 | every byte string is the encoding of the value it reads as, so the scalar encoding is a bijection |
| Wire.CStrOfText | src/tevclient.cpp:129-137 | a string without NUL is written as its bytes followed by one NUL |
| Wire.CStrsSnoc | src/tevclient.cpp:454-457 | the bytes of a list of C strings extended by one name are the old bytes followed by that name's C string |
| Wire.ScalarsSnoc | src/tevclient.cpp:110-117 | writing a vector element by element appends each element's encoding in order |
| Wire.WordsSnoc | src/tevclient.cpp:552-553 | writing the floats one by one appends each one's 4-byte encoding |
| Wire.OStream.constructor | src/tevclient.cpp:107-164 | a new stream holds no bytes |
| Wire.OStream.WriteScalar | src/tevclient.cpp:145-151 | the stream grows by exactly the `size` little-endian bytes of the value |
| Wire.OStream.WriteChar | src/tevclient.cpp:145-151 | the stream grows by exactly the one byte |
| Wire.OStream.WriteBool | src/tevclient.cpp:139-143 | the stream grows by one byte, 0 for true and 1 for false |
| Wire.OStream.WriteU32 | src/tevclient.cpp:145-151 | the stream grows by the 4 little-endian bytes of the value |
| Wire.OStream.WriteU64 | src/tevclient.cpp:145-151 | the stream grows by the 8 little-endian bytes of the value |
| Wire.OStream.WriteFloat | src/tevclient.cpp:145-151 | the stream grows by the 4 bytes of the float's bit pattern |
| Wire.OStream.WriteCString | src/tevclient.cpp:129-137 | the stream grows by the bytes before the first NUL, then one NUL |
| Wire.OStream.WriteString | src/tevclient.cpp:119-127 | the stream grows by every byte of the string, then one NUL |
| Wire.OStream.WriteScalars | src/tevclient.cpp:110-117 | the stream grows by each element's encoding, in order |
| VgCommands.CodeIsFixed | include/tevclient.h:15-39 | every command type has a distinct byte, and reading that byte gives back the type; `Invalid` is 127 and every other type is at most 20 |
| VgCommands.DataCount | include/tevclient.h:192-196 | a command never carries more than `MaxPayload` (8) floats |
| VgCommands.Arity | include/tevclient.h:75-190 | the number of floats each command type carries is at most 8 |
| VgCommands.StateFactoriesFollowArity | include/tevclient.h:75-134 | `save` to `lineTo`: every factory builds a command of its own type that carries exactly that type's number of floats |
| VgCommands.CurveFactoriesFollowArity | include/tevclient.h:135-164 | `arcTo` to `ellipse`: every factory builds a command of its own type that carries exactly that type's number of floats |
| VgCommands.ShapeFactoriesFollowArity | include/tevclient.h:165-190 | `quadTo` to `roundedRectVarying`: every factory builds a command of its own type that carries exactly that type's number of floats |
| VgCommands.ConstructorsKeepTheirArguments | include/tevclient.h:62-73 | the payload constructor keeps the type and every float, in order; the type-only constructor carries none; the default command is `Invalid` with no payload |
| VgCommands.WindingWordsDiffer | include/tevclient.h:41-45 | the two windings give different float bit patterns |
| Packets.TagsAreDistinct | src/tevclient.cpp:94-105 | the packet types have pairwise distinct tag bytes |
| Packets.EncodeCommandsSnoc | src/tevclient.cpp:549-554 | encoding one more command appends that command's type byte and payload |
| Packets.FramePrefixCountsItself | src/tevclient.cpp:314-324 | when it fits in 32 bits, the frame's length prefix is 4 plus the header length plus `extraLen`, which is the frame's size when the payload is present |
| Packets.ReadBoolOf | src/tevclient.cpp:139-143 | the focus byte reads back as the bool it encodes |
| Packets.ReadScalarOf | src/tevclient.cpp:145-151 | a written scalar reads back, leaving the rest of the bytes |
| Packets.ReadCStrOf | src/tevclient.cpp:129-137 | a written C string reads back, leaving the rest of the bytes |
| Packets.ReadCStrsOf | src/tevclient.cpp:454-457 | a written list of channel names reads back in order |
| Packets.ReadScalarsOf | src/tevclient.cpp:503-510 | written offsets or strides read back in order |
| Packets.ReadWordsOf | src/tevclient.cpp:552-553 | a written payload of floats reads back in order |
| Packets.ReadCommandOf | src/tevclient.cpp:551-553 | a command that carries its type's number of floats reads back unchanged |
| Packets.ReadCommandsOf | src/tevclient.cpp:549-554 | a written list of well-formed commands reads back unchanged |
| Packets.PayloadOutsideArityIsMisread | src/tevclient.cpp:551-553 | the count of floats is not written: a `Save` command given one float reads back as a bare `Save` followed by four stray bytes |
| Packets.OpenImageRoundTrip | src/tevclient.cpp:397-405 | the `openImage` header reads back as path, channel selector and focus flag |
| Packets.ReloadImageRoundTrip | src/tevclient.cpp:407-414 | the `reloadImage` header reads back as name and focus flag |
| Packets.CloseImageRoundTrip | src/tevclient.cpp:416-422 | the `closeImage` header reads back as the name and is exactly the tag, the name and its NUL, with no focus byte |
| Packets.CreateImageRoundTrip | src/tevclient.cpp:448-458 | the `createImage` header reads back as name, width, height, channel names and focus flag |
| Packets.ReadHeaderDispatch | src/tevclient.cpp:94-105 | a header is read by the reader its tag byte selects, for each of the six packet types the client sends; the three superseded tags (`OpenImage`, `UpdateImage`, `UpdateImageV2`) are not read |
| Packets.UpdateHeaderShape | src/tevclient.cpp:493-510 | the `updateImage` header is the tag followed by the body the reader expects |
| Packets.GraphicsHeaderShape | src/tevclient.cpp:543-554 | the `vectorGraphics` header is the tag followed by the body the reader expects |
| Packets.ReadUpdateBodyOf | src/tevclient.cpp:493-510 | the part of the `updateImage` header after the tag reads back field by field |
| Packets.ReadRegionOf | src/tevclient.cpp:502-510 | the region and the offsets and strides read back as written |
| Packets.UpdateImageRoundTrip | src/tevclient.cpp:493-510 | the `updateImage` header reads back as name, region, channel names, offsets, strides and focus flag |
| Packets.ReadGraphicsBodyOf | src/tevclient.cpp:543-554 | the part of the `vectorGraphics` header after the tag reads back field by field |
| Packets.VectorGraphicsRoundTrip | src/tevclient.cpp:540-556 | the `vectorGraphics` header reads back as name, append flag, commands and focus flag |
| Layout.StridedDataCount | src/tevclient.cpp:512-519 | the accumulating loop computes the largest strided extent over the channels, in wrapping 64-bit arithmetic |
| Layout.MaxExtentIsMaximum | src/tevclient.cpp:514-519 | the result is at least every channel's extent and, when there are channels, equals one of them |
| Layout.ExtentWithoutWrap | src/tevclient.cpp:512-518 | without overflow, a channel's extent is `offset + (w*h - 1) * stride + 1` |
| Layout.DefaultExtent | src/tevclient.cpp:476-478 | with the default offset i and stride n, channel i ends at most at `p*n`, and the last channel ends exactly there |
| Layout.DefaultLayoutIsTight | src/tevclient.cpp:476-519 | with default offsets and strides, the required length is exactly `w * h * count` floats |
| Layout.EmptyRegionWraps | src/tevclient.cpp:512-519 | for width 0 the pixel count is 0; one default channel then requires 0 floats, but two require 2^64 - 1 |
| Layout.PixelCountWraps | src/tevclient.cpp:512 | a 65536 x 65536 image has a 32-bit pixel count of 0 |
| Errors.TrimLineEnds | src/tevclient.cpp:55-57 | the result is a prefix of the message, only line ends were removed, and it does not end in one |
| Errors.TrimLineEndsIsUnique | src/tevclient.cpp:55-57 | those three properties determine the trimmed message |
| Errors.TrimLineEndsIsIdempotent | src/tevclient.cpp:55-57 | trimming a trimmed message changes nothing |
| Errors.NatDigits | src/tevclient.cpp:59 | the decimal digits are non-empty, all digits, and have no leading zero |
| Errors.DecimalString | src/tevclient.cpp:59 | the decimal form of an integer is never empty |
| Errors.NatDigitsRoundTrip | src/tevclient.cpp:59 | the digits read back as the number |
| Errors.DecimalStringRoundTrip | src/tevclient.cpp:59 | the decimal form starts with '-' exactly for negative codes and reads back as the code |
| Errors.ErrorString | src/tevclient.cpp:43-61 | the trailing-line-end loop and the suffix produce the trimmed system text followed by " (code)" |
| Errors.ErrorTextParts | src/tevclient.cpp:43-61 | an error text splits back into the trimmed system text, " (", the code and ")" |
| Instances.RunCount | src/tevclient.cpp:166-204 | after any sequence of calls the counter is the start plus the initializations minus the shutdowns, modulo 2^32 |
| Instances.BalancedRunRestoresCount | src/tevclient.cpp:166-204 | as many shutdowns as initializations, in any order, restore the counter |
| Instances.NestedRunAlternates | src/tevclient.cpp:166-204 | from 0, properly nested calls start the platform up and clean it up in strict alternation, and it is up exactly while the counter is positive |
| Instances.InstanceCounter.constructor | src/tevclient.cpp:166-167 | the counter starts at 0 with no start-up error |
| Instances.InstanceCounter.Initialize | src/tevclient.cpp:172-193 | the counter is incremented modulo 2^32 even when start-up fails; start-up runs only on the 0 -> 1 step; failure is reported only then and records the `errorString` text |
| Instances.InstanceCounter.Shutdown | src/tevclient.cpp:195-204 | the counter is decremented modulo 2^32, and clean-up runs only on the 1 -> 0 step |
| Transport.SocketCall | src/tevclient.cpp:260-265 | `socket` gives a new descriptor that was not open, or -1 with the error number set |
| Transport.ConnectCall | src/tevclient.cpp:267-273 | `connect` fails exactly on an unreachable address and sets the error number |
| Transport.CloseCall | src/tevclient.cpp:76-83 | `close` releases an open descriptor and fails with EBADF on any other |
| Transport.SendCall | src/tevclient.cpp:303-309 | `send` returns the full length exactly when the descriptor is open and the data fits; otherwise only the bytes that fit reach the server |
| Transport.Os.constructor | src/tevclient.cpp:246-249 | a new machine has nothing open and no bytes delivered |
| Transport.Os.Socket | src/tevclient.cpp:260 | the machine makes the `socket` transition |
| Transport.Os.Connect | src/tevclient.cpp:267 | the machine makes the `connect` transition |
| Transport.Os.Close | src/tevclient.cpp:76-83 | the machine makes the `close` transition |
| Transport.Os.Send | src/tevclient.cpp:303-304 | the machine makes the `send` transition |
| Connection.Send | src/tevclient.cpp:296-312 | for data below 2^31 bytes: the result is `Ok` exactly when the client is connected, its descriptor is open and the data fits; every failure is recorded as the last error; `NotConnected` exactly when no descriptor is held; the descriptor never changes |
| Connection.SendMessageIsSendAll | src/tevclient.cpp:314-324 | `sendMessage` is the sending of its pieces in order, stopping at the first failure, and the pieces make up the frame |
| Connection.SendOnOpenSocket | src/tevclient.cpp:296-312 | on an open descriptor a send that fits is delivered in full and succeeds; one that does not fit records the EPIPE text |
| Connection.SendAllOnOpenSocket | src/tevclient.cpp:314-324 | on an open descriptor, sending pieces delivers exactly the prefix of their concatenation that fits, and succeeds exactly when all of it fits |
| Connection.SendMessageFits | src/tevclient.cpp:314-324 | for pieces below 2^31 bytes: on an open descriptor with room for the whole frame, the server receives the frame, the result is `Ok` and the client state is unchanged |
| Connection.SendMessageOnOpenSocket | src/tevclient.cpp:314-324 | for pieces below 2^31 bytes: on an open descriptor, the server receives the frame's prefix that fits; the message succeeds exactly when the whole frame fits, leaving the client state unchanged; otherwise the error is `SocketError` |
| Connection.SendMessageNotConnected | src/tevclient.cpp:298-301 | without a connection nothing is sent, and the error is `NotConnected` with text "Not connected" |
| Connection.SendMessageOnClosedSocket | src/tevclient.cpp:303-309 | on a descriptor that is no longer open, the length-prefix send fails with EBADF, and nothing reaches the server |
| Connection.FirstUsable | src/tevclient.cpp:258-276 | the index of the first address on which both `socket` and `connect` succeed |
| Connection.ScanOutcome | src/tevclient.cpp:255-276 | the candidate loop connects exactly when some address is usable, on a fresh descriptor; a failed attempt leaves no descriptor open; the last error is `SocketError` exactly when an earlier address failed |
| Connection.ConnectWhenConnected | src/tevclient.cpp:241-244 | a connected client's `connect` does nothing and returns `Ok` |
| Connection.ConnectResult | src/tevclient.cpp:239-281 | `connect` connects exactly when some address is usable, but returns `Ok` only when the first address is usable; it returns the last error and sends nothing |
| Connection.ConnectUnresolved | src/tevclient.cpp:249-253 | a failed resolution records "getaddrinfo() failed: " and the resolver's text, touching no socket |
| Connection.Disconnect | src/tevclient.cpp:283-294 | `disconnect` never changes the held descriptor |
| Connection.DisconnectWhenNotConnected | src/tevclient.cpp:285 | without a connection `disconnect` does nothing and returns `Ok` |
| Connection.DisconnectLeavesStaleDescriptor | src/tevclient.cpp:283-294 | after a successful disconnect the client still counts as connected with a closed descriptor: a second disconnect fails with EBADF, `connect` does nothing, and messages fail without reaching the server |
| Connection.OrDefault | src/tevclient.cpp:441-446 | the channel array used holds exactly `count` entries, from the caller's array or the default |
| Connection.SendMessageResults | src/tevclient.cpp:314-324 | `sendMessage` returns `Ok`, `NotConnected` or `SocketError`, and never changes the descriptor |
| Connection.CreateImageValidation | src/tevclient.cpp:424-439 | `createImage` fails with `ArgumentError` exactly when the width or height is 0, there is no channel, or more than four channels have no names; it then records that check's message and sends nothing |
| Connection.CreateImageDefaultNames | src/tevclient.cpp:441-458 | with valid sizes and up to four channels and no names, the header carries the first `count` of "R", "G", "B", "A" |
| Connection.UpdateImageValidation | src/tevclient.cpp:461-529 | `updateImage` fails with `ArgumentError` exactly when there is no channel, more than four channels lack a names, offsets or strides array, or the data count is not the required strided length; it then records the error and sends nothing; otherwise it returns `Ok`, `NotConnected` or `SocketError` |
| Connection.UpdateImageRejectedResult | src/tevclient.cpp:461-527 | an update that fails a check returns `ArgumentError`, records it and leaves the machine untouched |
| Connection.UpdateImageAcceptedResult | src/tevclient.cpp:493-529 | an update that passes every check returns what sending its message returns, never `ArgumentError` |
| Connection.UpdateImageRejects | src/tevclient.cpp:465-527 | each failing check gives exactly the rejection with its own message; a data count that does not match names the expected count |
| Connection.UpdateImageSends | src/tevclient.cpp:476-529 | a valid update is exactly the `sendMessage` of its header, with the defaults filled in, and of the caller's first `dataCount` floats, announced as `dataCount * 4` bytes |
| Connection.PayloadLength | src/tevclient.cpp:529 | a given buffer's payload is its first `dataCount` floats, and its byte length is the one the frame announces |
| Connection.DefaultUpdateIsTight | src/tevclient.cpp:476-519 | with the default layout and no wrap-around, the required data count is `w * h * count` |
| Connection.EmptyRegionRequirement | src/tevclient.cpp:512-519 | for an empty region one default channel requires 0 floats, and two require 2^64 - 1 |
| Connection.EmptyUpdateIsSent | src/tevclient.cpp:461-529 | an update of width 0 with one default channel and no data is sent, not rejected |
| Connection.EmptyUpdateDemandsWrappedLength | src/tevclient.cpp:512-527 | an update of width 0 with two default channels and no data is rejected with expected count 2^64 - 1 |
| Connection.CreateImageFilledRejects | src/tevclient.cpp:532-538 | the filling `createImage` with a zero size, no channel or more than four channels fails at the create step, sends nothing and attempts no update |
| Connection.DefaultUpdateMessage | src/tevclient.cpp:461-529 | updating a whole image in the default layout with tightly packed data is the `sendMessage` of the default header and all the floats |
| Connection.CreateImageFilledDelivers | src/tevclient.cpp:532-538 | for a payload below 2^31 bytes: when connected with enough room, the filling `createImage` with tightly packed data succeeds; the server receives the create frame and then the update frame carrying the floats |
| TevClient.WriteNames | src/tevclient.cpp:454-457 | the loop appends the first `count` channel names as C strings |
| TevClient.WriteCommands | src/tevclient.cpp:549-554 | the loop over the commands appends every command's encoding, in order |
| TevClient.WriteCommand | src/tevclient.cpp:551-553 | one command appends its type byte and then its floats, in order |
| TevClient.WriteRegion | src/tevclient.cpp:502-510 | the region and the offsets and strides are appended as 32-bit and 64-bit little-endian values |
| TevClient.OpenImageMessage | src/tevclient.cpp:399-403 | the stream holds exactly the `openImage` header |
| TevClient.ReloadImageMessage | src/tevclient.cpp:409-412 | the stream holds exactly the `reloadImage` header |
| TevClient.CloseImageMessage | src/tevclient.cpp:418-420 | the stream holds exactly the `closeImage` header |
| TevClient.CreateImageMessage | src/tevclient.cpp:448-457 | the stream holds exactly the `createImage` header for the first `count` names |
| TevClient.UpdateImageMessage | src/tevclient.cpp:493-510 | the stream holds exactly the `updateImage` header for the first `count` names, offsets and strides |
| TevClient.VectorGraphicsMessage | src/tevclient.cpp:543-554 | the stream holds exactly the `vectorGraphics` header |
| TevClient.Client.constructor | src/tevclient.cpp:209-216 | a new client, by default for 127.0.0.1 port 14158, is not connected and counts itself once; a failed first start-up is recorded as `SocketError` with "Failed to initialize: " and the error text, and the counter keeps that text as its start-up error; otherwise the counter's start-up error is unchanged |
| TevClient.Client.Dispose | src/tevclient.cpp:218-222 | the destructor performs `disconnect` and then releases one count, leaving the counter's start-up error as it was |
| TevClient.Client.SetLastError | src/tevclient.cpp:326-331 | the error and its text are recorded, and the error is returned |
| TevClient.Client.Connect | src/tevclient.cpp:239-281 | the candidate loop makes exactly the `connect` transition |
| TevClient.Client.Disconnect | src/tevclient.cpp:283-294 | the method makes exactly the `disconnect` transition |
| TevClient.Client.Send | src/tevclient.cpp:296-312 | the method makes exactly the `send` transition |
| TevClient.Client.SendMessage | src/tevclient.cpp:314-324 | the three sends make exactly the `sendMessage` transition |
| TevClient.Client.OpenImage | src/tevclient.cpp:397-405 | the method makes exactly the `openImage` transition; the selector defaults to empty and the focus flag to true |
| TevClient.Client.ReloadImage | src/tevclient.cpp:407-414 | the method makes exactly the `reloadImage` transition |
| TevClient.Client.CloseImage | src/tevclient.cpp:416-422 | the method makes exactly the `closeImage` transition |
| TevClient.Client.CreateImage | src/tevclient.cpp:424-459 | the checks and the header loop make exactly the `createImage` transition |
| TevClient.Client.UpdateImage | src/tevclient.cpp:461-530 | the checks, the header, the strided-length loop and the send make exactly the `updateImage` transition |
| TevClient.Client.SendUpdate | src/tevclient.cpp:493-529 | once the argument checks pass, the size check rejects with the expected count, or the header and payload are sent |
| TevClient.Client.CreateImageFilled | src/tevclient.cpp:532-538 | the method makes exactly the filling `createImage` transition: create, then update unless the create failed |
| TevClient.Client.VectorGraphics | src/tevclient.cpp:540-556 | the method makes exactly the `vectorGraphics` transition; the append and focus flags default to true |

## Left out

- Real sockets, name resolution and error texts. `Transport` stands in for `socket`, `connect`, `close`, `send` and `getaddrinfo`. The texts of `strerror`, `FormatMessage` and `gai_strerror` are parameters of the environment.
- Partial sends. A send that does not fit delivers the bytes that fit and fails with EPIPE. A real `send` may instead return a short count; the client treats both as `SocketError`.
- The `static_cast<int>(len)` in `send`. The model assumes lengths below 2^31. A longer piece would reach the system as a negative or truncated length, which the model does not represent.
- Connection.Send: states its `Ok` case only for data below 2^31 bytes, because of the cast above; the model lets a longer piece through.
- Connection.SendMessageOnOpenSocket: likewise holds as the source behaves only while every piece of the frame is below 2^31 bytes.
- Connection.SendMessageFits: likewise only while every piece of the frame is below 2^31 bytes.
- Connection.CreateImageFilledDelivers: likewise only for a payload below 2^31 bytes.
- Transport.SocketCall: hands out descriptors in increasing order and never reuses a closed one, while a real `socket()` returns the lowest free number. So Connection.DisconnectLeavesStaleDescriptor shows sends failing on the stale descriptor, where a real process could have reused that number and would then write the frames into another socket.
- `size_t` is taken to be 64 bits wide.
- Thread safety: the atomic counter and the Windows mutex. `Instances` models sequential calls only.
- Platform start-up and clean-up are abstract events. `WSAStartup`/`WSACleanup` on Windows and ignoring SIGPIPE elsewhere are not modelled separately. The start-up result is a parameter of the constructor and of `Initialize`.
- Floats are opaque 32-bit patterns. No floating-point arithmetic happens in the library apart from the winding casts, which are modelled as two distinct bit patterns.
- The public `Client` forwards every call to its `Client::Impl` member `mImpl`. The model merges the two into one class. `initialize` and `shutdown` are `Instances.InstanceCounter.Initialize` and `Shutdown`. The getters are plain functions.
- Memory ownership (`new`/`delete`, `freeaddrinfo`) is not modelled.
- The caller passes C arrays with counts. The model passes sequences and requires them to hold at least the counts given.
- TevClient.Client.UpdateImage: requires a given buffer to hold `dataCount` floats whose byte size is below 2^64, as reading `imageData` in the source does. So `imageDataCount * sizeof(float)` never wraps in the model.
- The example program is not part of this model.
- `operator<<(bool)` writes `char(var ? 0 : 1)` (src/tevclient.cpp:139-141), so `true` goes out as byte 0 and `false` as byte 1; `Wire.BoolByte` follows this.
