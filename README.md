# p2pfile: a verified model of the file-transfer engine and the frp glue

p2pfile sends a file from one machine to another over a direct TCP connection
that frp's `xtcp` mode sets up. Two parts of it are modelled here.

**The transfer engine.** This is `FileTransfer` in `src/transfer/file_transfer.py`.
Two endpoints exchange messages over one socket. Each message is a 64-byte command
frame (`REQUEST`, `ACCEPT`, `REJECT`, `DATA`, `RESUME`, `COMPLETE`, `ERROR`, padded
with spaces). `REQUEST`, `RESUME`, `COMPLETE` and `ERROR` may be followed by a
1024-byte header frame holding a document. `DATA` is followed by an 8-byte
big-endian length and at most 1 MiB of file content.

The roles work like this:

- The receiver's loop dispatches each command to its handler.
- A request is accepted, rejected, or resumed from a `<path>.resume` record.
- Chunks are appended to the file, and the `.resume` record is refreshed after each one.
- When COMPLETE arrives, the receiver recomputes the file's digest. The transfer succeeds only when it matches.
- The sender streams the file chunk by chunk, then sends COMPLETE and the digest.
- The host can pause, resume or cancel a transfer.

The model follows the source's own form:

- `Transfer.FileTransfer` is a class with the source's fields.
- Each of its methods changes them in place.
- Each method is proved to have exactly the effect a function of module `Engine` describes, on the endpoint's state as a value.
- The socket is a pair of byte streams: what the peer has sent and not yet been read, and what this endpoint has written.
- The file system is a map from path to contents. The `.resume` and `.progress` sidecars live in it too. Directories are not entries of the map. A path whose last component is empty, `.` or `..` names a directory (`Engine.NamesDirectory`), and opening it for writing fails.

Modules:

- `Bytes`: `ljust`, big-endian integers, UTF-8/ASCII decoding and `str.strip`.
- `Json`: the documents.
- `Frame`: the wire format.
- `Properties` and `Delivery`: what is proved about `Engine`. The chief result is `Delivery.TransferDelivers`. Everything the sender's loop writes from an offset, read by a receiver that holds the file up to that offset, leaves the receiver with exactly the sender's file. Both ends then mark the transfer complete.

**The frp glue.** This is `FrpConnection` in `src/frp/connection.py`, modelled by the class
`Frp.FrpConnection` and the text functions of `FrpText`. It covers:

- the lines of `frpc.ini` and the fields `generate_config` sets;
- the `config_path` guard of `start_frpc`;
- how `_monitor_frpc` classifies each line of frpc's output, and how it parses `connected: host:port`;
- `get_connection_info`.

## Model

| member | source | states |
|---|---|---|
| Frame.Token | src/transfer/file_transfer.py:29-35 | each command's token is non-empty ASCII of at most 8 characters, with no whitespace at either end |
| Frame.ParseCommand | src/transfer/file_transfer.py:151-162 | the dispatch chain names a command exactly when the text is that command's token, and names none when no token equals the text |
| Frame.Take | src/transfer/file_transfer.py:141 | `recv(n)` yields `min(n, available)` bytes, taken from the front of the stream |
| Frame.Drop | src/transfer/file_transfer.py:141 | what `recv(n)` leaves behind is the rest of the stream: the bytes read followed by it are the stream |
| Frame.CommandFrame | src/transfer/file_transfer.py:699 | a command frame is exactly `COMMAND_SIZE` (64) bytes |
| Frame.CommandFrameLayout | src/transfer/file_transfer.py:699 | a command frame is the token's bytes followed by spaces up to 64 bytes |
| Frame.CommandTextStrips | src/transfer/file_transfer.py:147 | decoding a command frame and stripping it gives back the token |
| Frame.TokenParses | src/transfer/file_transfer.py:151-162 | every token is dispatched to its own command |
| Frame.CommandRoundTrip | src/transfer/file_transfer.py:141-147 | `recv(64)` on a command frame followed by anything reads exactly the frame and leaves the rest; the frame decodes to its token, and the token parses to its command |
| Frame.HeaderFrame | src/transfer/file_transfer.py:441 | a header frame is at least `HEADER_SIZE` (1024) bytes, and exactly 1024 when the document fits |
| Frame.HeaderRoundTrip | src/transfer/file_transfer.py:174-175 | `recv(1024)` on a fitting header frame followed by anything reads exactly the frame, which decodes to the document written |
| Frame.LengthPrefix | src/transfer/file_transfer.py:522 | the length prefix of a chunk is 8 bytes |
| Frame.LengthPrefixReads | src/transfer/file_transfer.py:255-256 | `int.from_bytes(..., 'big')` of the prefix gives back the chunk's length |
| Frame.ReadAt | src/transfer/file_transfer.py:513 | `f.read(n)` from a cursor gives at most `n` bytes, which are the file's bytes at the cursor; it is empty exactly at or past the end of the file, or when `n` is 0 |
| Frame.ChunksCover | src/transfer/file_transfer.py:510-525 | the chunks read from an offset are non-empty and at most `CHUNK_SIZE` each, and together they are exactly the rest of the file |
| Frame.ReassembleChunk | src/transfer/file_transfer.py:259-266 | the reassembly loop closes ("连接已关闭") exactly when the stream holds fewer than `chunk_size` bytes; otherwise it gathers exactly the first `chunk_size` bytes and leaves the rest; every read asks for between 1 and `BUFFER_SIZE` bytes, and the reads add up to `chunk_size` |
| Bytes.LJust | src/transfer/file_transfer.py:699 | `ljust(width)` pads to `width` bytes and never truncates |
| Bytes.LJustPads | src/transfer/file_transfer.py:699 | the padded bytes start with the input and continue with spaces only |
| Bytes.ToBigEndian | src/transfer/file_transfer.py:522 | `to_bytes(width, 'big')` has exactly `width` bytes |
| Bytes.BigEndianRoundTrip | src/transfer/file_transfer.py:255-256 | reading back a big-endian encoding gives the number written |
| Bytes.BigEndianInverse | src/transfer/file_transfer.py:256 | any 8 received bytes hold a value below 2^64, and encoding that value gives the same bytes |
| Bytes.AsciiRoundTrip | src/transfer/file_transfer.py:147 | an ASCII token encoded and decoded is the token |
| Bytes.Utf8DecodeAscii | src/transfer/file_transfer.py:147 | on ASCII bytes, strict UTF-8 decoding is ASCII decoding |
| Bytes.AsciiPaddedDecode | src/transfer/file_transfer.py:147 | a space-padded ASCII token decodes to the token followed by spaces |
| Bytes.StripLeft | src/transfer/file_transfer.py:147 | `lstrip` removes exactly the leading whitespace |
| Bytes.StripRight | src/transfer/file_transfer.py:147 | `rstrip` removes exactly the trailing whitespace |
| Bytes.StripPadded | src/transfer/file_transfer.py:147 | a word with no whitespace at either end, followed by whitespace, strips back to the word |
| Bytes.BlanksStrip | src/transfer/file_transfer.py:147 | a word followed by spaces strips back to the word |
| Json.Get | src/transfer/file_transfer.py:177-179 | `dict.get`: absent exactly when no member has the key, and otherwise the value of a member with that key |
| Json.RoundTrip | src/transfer/file_transfer.py:175 | a written document, followed by header padding, is read back as itself |
| Json.MembersRoundTrip | src/transfer/file_transfer.py:744 | the members of a document read back in order, whatever follows them |
| Json.StringRoundTrip | src/transfer/file_transfer.py:744 | a string member reads back as itself, whatever follows it |
| Json.IntRoundTrip | src/transfer/file_transfer.py:744 | an integer member, negative or not, reads back as itself |
| Engine.Write | src/transfer/file_transfer.py:680 | a successful `sendall` keeps what has been read, keeps the socket, and does not reconnect |
| Engine.SendCommand | src/transfer/file_transfer.py:691-702 | `_send_command` neither reads nor reconnects; a failed write only marks the connection lost |
| Engine.Emit | src/transfer/file_transfer.py:281-287 | a notification of the callback leaves the socket and the connection alone |
| Engine.FileHash | src/transfer/file_transfer.py:704-725 | the digest of an existing file is the digest of its contents; a missing file hashes to `""` |
| Engine.OffsetOf | src/transfer/file_transfer.py:210 | `get('transferred_size', 0)`: 0 when the member is absent, the integer when it is one, and nothing otherwise |
| Engine.SizeOf | src/transfer/file_transfer.py:178 | the request's `file_size` is read exactly when it is an integer |
| Engine.BaseName | src/transfer/file_transfer.py:429 | `os.path.basename` is the longest suffix without `/` |
| Engine.SaveResume | src/transfer/file_transfer.py:727-746 | `_save_resume_info` touches neither the socket nor the connection |
| Engine.Fail | src/transfer/file_transfer.py:288-291 | recording a failure touches neither the socket nor the connection |
| Engine.FailAndSignal | src/transfer/file_transfer.py:288-292 | the failure path of `_handle_data` and `_handle_resume` reads nothing and does not reconnect |
| Engine.Restart | src/transfer/file_transfer.py:218-230 | starting the file afresh reads nothing and does not reconnect; `RestartOpens` states what it sends and opens |
| Engine.ResumeOrRestart | src/transfer/file_transfer.py:200-224 | the resume branch reads nothing and does not reconnect; `SidecarResumes` and `ResumeOrRestartOpens` state what it sends and opens |
| Engine.StartReceiving | src/transfer/file_transfer.py:194-236 | the accepted branch reads nothing and does not reconnect; `StartReceivingFacts` states when the transfer starts |
| Engine.RequestStep | src/transfer/file_transfer.py:168-243 | `_handle_request` reads only forward in the stream, keeps the socket, and does not reconnect; a failed `open` ends in the bare ERROR of its except block |
| Engine.Store | src/transfer/file_transfer.py:269-287 | storing a chunk reads nothing and does not reconnect |
| Engine.DataStep | src/transfer/file_transfer.py:245-292 | `_handle_data` reads only forward in the stream, keeps the socket, and does not reconnect |
| Engine.ResumeStep | src/transfer/file_transfer.py:294-324 | `_handle_resume`, including the sender loop it starts, reads only forward and does not reconnect |
| Engine.CompleteStep | src/transfer/file_transfer.py:326-376 | `_handle_complete` reads only forward and does not reconnect |
| Engine.Verify | src/transfer/file_transfer.py:337-366 | the digest check reads nothing and does not reconnect |
| Engine.ErrorStep | src/transfer/file_transfer.py:378-405 | `_handle_error` reads only forward and does not reconnect |
| Engine.ReceiveOne | src/transfer/file_transfer.py:138-166 | one pass of the receive loop either ends the connection or consumes at least one byte |
| Engine.ReceiveAll | src/transfer/file_transfer.py:138-166 | the receive loop ends with the connection marked closed |
| Engine.PauseStep | src/transfer/file_transfer.py:598-623 | `pause_transfer` touches neither the socket nor the connection |
| Engine.CancelStep | src/transfer/file_transfer.py:654-689 | `cancel_transfer` reads nothing and does not reconnect |
| Engine.ApplyInterrupt | src/transfer/file_transfer.py:510 | a pause or cancel between chunks either changes nothing or leaves the transfer stopped or paused |
| Engine.Abort | src/transfer/file_transfer.py:575-596 | the except block of `_send_file_data` leaves the transfer inactive and does not reconnect |
| Engine.Finish | src/transfer/file_transfer.py:547-574 | sending COMPLETE and the digest reads nothing and does not reconnect |
| Engine.SendLoop | src/transfer/file_transfer.py:504-596 | `_send_file_data` reads nothing from the socket and does not reconnect |
| Engine.SendChunk | src/transfer/file_transfer.py:522-542 | after DATA, one chunk's step moves the read cursor past the chunk and changes no file |
| Transfer.FileTransfer.constructor | src/transfer/file_transfer.py:41-66 | a new endpoint has no socket, no connection, no transfer and an empty callback log |
| Transfer.FileTransfer.SendCommand | src/transfer/file_transfer.py:691-702 | the method's effect is `Engine.SendCommand` |
| Transfer.FileTransfer.SendAll | src/transfer/file_transfer.py:680 | `sendall` succeeds exactly on a writable socket and then appends the data |
| Transfer.FileTransfer.Recv | src/transfer/file_transfer.py:141 | the method's effect is `Engine.Recv` |
| Transfer.FileTransfer.Notify | src/transfer/file_transfer.py:281-287 | the method's effect is `Engine.Emit` |
| Transfer.FileTransfer.SaveResumeInfo | src/transfer/file_transfer.py:727-746 | the method's effect is `Engine.SaveResume` |
| Transfer.FileTransfer.Fail | src/transfer/file_transfer.py:288-291 | the method's effect is `Engine.Fail` |
| Transfer.FileTransfer.FailAndSignal | src/transfer/file_transfer.py:288-292 | the method's effect is `Engine.FailAndSignal` |
| Transfer.FileTransfer.RestartFile | src/transfer/file_transfer.py:218-230 | whether the file was opened, and the method's effect, are `Engine.Restart`'s |
| Transfer.FileTransfer.ResumeOrRestartFile | src/transfer/file_transfer.py:200-224 | whether the file was opened, and the method's effect, are `Engine.ResumeOrRestart`'s |
| Transfer.FileTransfer.StartReceivingFile | src/transfer/file_transfer.py:194-236 | whether the file was opened, and the method's effect, are `Engine.StartReceiving`'s |
| Transfer.FileTransfer.HandleRequest | src/transfer/file_transfer.py:168-243 | the method's effect is `Engine.RequestStep` |
| Transfer.FileTransfer.StoreChunk | src/transfer/file_transfer.py:269-287 | the method's effect is `Engine.Store` |
| Transfer.FileTransfer.HandleData | src/transfer/file_transfer.py:245-292 | the method's effect is `Engine.DataStep`; the chunk is gathered by `Frame.ReassembleChunk` |
| Transfer.FileTransfer.HandleResume | src/transfer/file_transfer.py:294-324 | the method's effect is `Engine.ResumeStep` |
| Transfer.FileTransfer.VerifyFile | src/transfer/file_transfer.py:337-366 | the method's effect is `Engine.Verify` |
| Transfer.FileTransfer.HandleComplete | src/transfer/file_transfer.py:326-376 | the method's effect is `Engine.CompleteStep` |
| Transfer.FileTransfer.HandleError | src/transfer/file_transfer.py:378-405 | the method's effect is `Engine.ErrorStep` |
| Transfer.FileTransfer.ReceiveCommand | src/transfer/file_transfer.py:139-166 | the method's effect is `Engine.ReceiveOne` |
| Transfer.FileTransfer.ReceiveLoop | src/transfer/file_transfer.py:134-166 | the loop's effect is `Engine.ReceiveAll` |
| Transfer.FileTransfer.SendFile | src/transfer/file_transfer.py:407-502 | the result and the effect are `Engine.SendFileStep`'s |
| Transfer.FileTransfer.AwaitAnswer | src/transfer/file_transfer.py:444-502 | the result and the effect are `Engine.AwaitAnswer`'s |
| Transfer.FileTransfer.ResumeSendingFile | src/transfer/file_transfer.py:464-486 | the result and the effect are `Engine.ResumeSending`'s |
| Transfer.FileTransfer.AbortSending | src/transfer/file_transfer.py:575-596 | the result and the effect are `Engine.Abort`'s |
| Transfer.FileTransfer.FinishSending | src/transfer/file_transfer.py:547-574 | the result and the effect are `Engine.Finish`'s |
| Transfer.FileTransfer.Intervene | src/transfer/file_transfer.py:510 | the method's effect is `Engine.ApplyInterrupt` |
| Transfer.FileTransfer.SendChunkData | src/transfer/file_transfer.py:522-542 | the method's effect is `Engine.SendChunk` |
| Transfer.FileTransfer.SendFileData | src/transfer/file_transfer.py:504-596 | the loop's result and effect are `Engine.SendLoop`'s |
| Transfer.FileTransfer.PauseTransfer | src/transfer/file_transfer.py:598-623 | the result and the effect are `Engine.PauseStep`'s |
| Transfer.FileTransfer.ResumeTransfer | src/transfer/file_transfer.py:625-652 | the results and the effect are `Engine.ResumeTransferStep`'s |
| Transfer.FileTransfer.CancelTransfer | src/transfer/file_transfer.py:654-689 | the outcome and the effect are `Engine.CancelStep`'s |
| Transfer.FileTransfer.Close | src/transfer/file_transfer.py:748-766 | the outcome and the effect are `Engine.CloseStep`'s |
| Transfer.FileTransfer.SaveProgress | src/transfer/file_transfer.py:774-783 | the method's effect is `Engine.SaveProgress` |
| Transfer.FileTransfer.LoadProgress | src/transfer/file_transfer.py:785-795 | the value read is `Engine.LoadProgress`'s, and nothing changes |
| Transfer.FileTransfer.CleanProgress | src/transfer/file_transfer.py:797-803 | the method's effect is `Engine.CleanProgress` |
| Properties.ProgressLifecycle | src/transfer/file_transfer.py:774-795 | `_load_progress` after `_save_progress` reads back the transferred size; after `_clean_progress` it reads 0 |
| Properties.ResumeRecordReads | src/transfer/file_transfer.py:735-744 | a `.resume` record reads back as itself, and its offset is the transferred size it holds |
| Properties.PauseRecordsOffset | src/transfer/file_transfer.py:605-623 | `pause_transfer` succeeds exactly on a live transfer and otherwise changes nothing; it sets the pause flag, keeps the socket, and leaves a `.resume` record of the offset reached |
| Properties.PauseThenResume | src/transfer/file_transfer.py:632-652 | after a pause, `resume_transfer` succeeds and clears the flag; it restarts the sender exactly when the open file is read, and the transfer is as before the pause |
| Properties.SidecarResumes | src/transfer/file_transfer.py:200-224 | with a readable `.resume` record, the receiver answers RESUME with the recorded offset, keeps the file's contents and appends from there; if the path names a directory, the append `open` raises, ACCEPT follows, the `'wb'` `open` raises too, and no file is opened or changed |
| Properties.UnreadableSidecarRestarts | src/transfer/file_transfer.py:218-224 | a `.resume` record that does not decode is ignored: the receiver starts the file afresh |
| Properties.RestartOpens | src/transfer/file_transfer.py:218-230 | starting afresh sends ACCEPT and opens the file empty at offset 0 for the announced size; on a directory path the `open` fails and nothing else changes |
| Properties.DataMessageSplits | src/transfer/file_transfer.py:255-256 | the 8 prefix bytes of a DATA message read back as the chunk's length, and the chunk follows them |
| Properties.DataAppends | src/transfer/file_transfer.py:245-287 | `_handle_data` on a live, unpaused transfer appends the chunk and adds its length to `transferred_size`; it refreshes the `.resume` record, reports the progress, consumes exactly the message and sends nothing |
| Properties.DataStepStores | src/transfer/file_transfer.py:255-270 | `_handle_data` reads the length and exactly that many bytes, and stores them |
| Properties.DataTruncated | src/transfer/file_transfer.py:261-264 | a stream that ends inside a chunk stops the transfer with "连接已关闭", writes nothing to the file and answers with a bare ERROR |
| Properties.DataIgnoredUnlessLive | src/transfer/file_transfer.py:249-251 | `_handle_data` on a transfer that is not live, or is paused, reads nothing and changes nothing |
| Properties.Dispatch | src/transfer/file_transfer.py:141-162 | a command frame at the head of the stream is consumed whole and goes to its handler; ACCEPT and REJECT are ignored |
| Properties.EndOfStream | src/transfer/file_transfer.py:141-145 | an exhausted stream ends the receive loop with the connection closed and nothing else changed |
| Properties.RequestReads | src/transfer/file_transfer.py:174-196 | a request header is read whole; the callback is asked, and a declined request gets REJECT; otherwise the file named goes under the download directory |
| Properties.RequestFields | src/transfer/file_transfer.py:177-178 | the receiver finds in a request header the name and size the sender put there |
| Properties.RequestDeclined | src/transfer/file_transfer.py:238-240 | a declined request sends REJECT, opens no file, and changes only the callback's log |
| Properties.RequestAccepted | src/transfer/file_transfer.py:194-243 | an accepted request makes the file the live, unpaused, error-free transfer at the announced size; with no `.resume` record, ACCEPT is sent, the file is emptied and the offset is 0. A name that makes the path a directory gets ACCEPT and then a bare ERROR; the transfer, its open file and the files are left as they were |
| Properties.StartReceivingFacts | src/transfer/file_transfer.py:194-236 | the accepted branch opens the file exactly when the path is not a directory; only then is the transfer made live, and otherwise only the current path changes |
| Properties.DirectoryNames | src/transfer/file_transfer.py:196 | the names `""`, `.` and `..` make the joined path a directory |
| Properties.JoinedBaseName | src/transfer/file_transfer.py:196 | a non-empty name without `/` is the last component of the joined path, which names a directory exactly for `.` and `..` |
| Properties.BaseNameAfter | src/transfer/file_transfer.py:196 | what follows a trailing `/` is the last component of a path |
| Properties.ResumeOrRestartOpens | src/transfer/file_transfer.py:200-224 | whether it resumes or restarts, the receiver ends up writing the path at the announced size, unless the path names a directory; then the open file and the files stay as they were |
| Properties.RequestMalformed | src/transfer/file_transfer.py:241-243 | a request header that does not decode gets a bare ERROR, and nothing else changes |
| Properties.CompleteVerifies | src/transfer/file_transfer.py:326-366 | the transfer is complete exactly when the announced digest is the file's digest; then the `.resume` record is removed, and otherwise the error is "文件校验失败"; either way the transfer stops and the file is closed |
| Properties.ErrorReported | src/transfer/file_transfer.py:382-403 | an error header's message becomes `transfer_error`; the transfer stops and the file is closed |
| Properties.BareErrorIgnored | src/transfer/file_transfer.py:404-405 | a bare ERROR at the end of the stream leaves the transfer as it was |
| Properties.CancelReachesPeer | src/transfer/file_transfer.py:654-689 | cancelling a live transfer over a writable socket returns true after sending ERROR and the cancel header; the peer's loop records "用户取消传输" and stops its transfer |
| Properties.CancelSends | src/transfer/file_transfer.py:665-689 | cancelling a live transfer over a writable socket returns true and writes ERROR and the cancel header |
| Properties.CancelHeard | src/transfer/file_transfer.py:378-403 | ERROR and the cancel header, as received, record the cancel message and stop the transfer |
| Properties.CancelGuard | src/transfer/file_transfer.py:661-680 | `cancel_transfer` returns false with nothing changed unless the transfer is live; otherwise it stops it, records the cancel message and closes the file; it returns true exactly on a writable socket |
| Properties.SendFileGuard | src/transfer/file_transfer.py:417-425 | `send_file` without a connection, or without the file, returns false and writes nothing |
| Properties.ResumeTransferGuard | src/transfer/file_transfer.py:632-652 | `resume_transfer` succeeds exactly on a live, paused transfer, and then it clears only the pause flag; otherwise it changes nothing |
| Properties.LoopHaltsWhenStopped | src/transfer/file_transfer.py:510 | the sender loop on a stopped or paused transfer sends nothing |
| Properties.FinishGuard | src/transfer/file_transfer.py:548 | COMPLETE and the digest go out only for a live, unpaused transfer without an error |
| Properties.SendLoopEnds | src/transfer/file_transfer.py:513-574 | at the end of the file, the loop sends COMPLETE and the file's digest and marks the transfer complete and closed |
| Properties.SendChunkAdvances | src/transfer/file_transfer.py:519-542 | DATA, the length, the chunk and the progress report make one step of `Advance` |
| Properties.SendLoopStep | src/transfer/file_transfer.py:510-545 | before the end of the file, one pass of the loop writes the next chunk's DATA message and moves the cursor past the chunk |
| Properties.AdvanceStreams | src/transfer/file_transfer.py:513-528 | after one DATA message the sender is still streaming, at the offset after the chunk |
| Properties.StreamAdvance | src/transfer/file_transfer.py:510-525 | the stream from an offset is the next chunk's DATA message followed by the stream after it, and the progress reports are that chunk's report followed by the reports after it |
| Properties.StreamFrames | src/transfer/file_transfer.py:510-525 | the stream is the DATA messages of the file's chunks, in file order |
| Properties.SentAtEnd | src/transfer/file_transfer.py:547-574 | at the end of the file, what is left to send is COMPLETE and the digest |
| Properties.LoopEndsSent | src/transfer/file_transfer.py:510-574 | at the end of the file, the loop ends in `Sent` |
| Properties.SentAdvance | src/transfer/file_transfer.py:513-545 | what is left to send after one DATA message ends where what was left before it ends |
| Properties.LoopIsSent | src/transfer/file_transfer.py:504-574 | left alone, the loop raises nothing and ends in `Sent` |
| Properties.LoopStepSent | src/transfer/file_transfer.py:510-545 | before the end of the file, one DATA message and then the rest of the loop end in `Sent` |
| Properties.SendLoopDelivers | src/transfer/file_transfer.py:504-574 | left alone from an offset, `_send_file_data` writes every remaining chunk as a DATA message in order, then COMPLETE and the digest of the whole file; the transferred size reaches the file size, each chunk's offset is reported, and the transfer ends complete and inactive |
| Properties.OffsetAfter | src/transfer/file_transfer.py:513-528 | the offset after the next `n` chunks lies between the offset and the end of the file |
| Properties.StreamNPrefix | src/transfer/file_transfer.py:510-545 | the DATA messages of the next `n` chunks, followed by the stream from the offset they reach, are the whole stream: they are a prefix of it |
| Properties.PrefixParts | src/transfer/file_transfer.py:510-545 | the same prefix relation, by induction on `n` |
| Properties.StreamNStep | src/transfer/file_transfer.py:513-542 | before the end of the file, the next `n` messages, reports and offset are one chunk's, then `n - 1` more from the offset after it |
| Properties.ChunksStep | src/transfer/file_transfer.py:513-516 | while chunks remain, the offset is inside the file and one chunk fewer remains after the next one |
| Properties.SentNZero | src/transfer/file_transfer.py:510 | sending no more messages leaves a streaming sender as it is |
| Properties.SentNAdvance | src/transfer/file_transfer.py:513-542 | `n` messages from an offset are one DATA message, then `n - 1` from the offset after it |
| Properties.LoopUntilInterrupt | src/transfer/file_transfer.py:510-545 | a pause or cancel due after `k` messages first lets exactly the next `k - sent` DATA messages go out |
| Properties.LoopBeforeInterrupt | src/transfer/file_transfer.py:510-545 | before the interrupt is due, one pass sends one DATA message and the loop goes on from the offset after it |
| Properties.NotDueStep | src/transfer/file_transfer.py:510-545 | an interrupt not yet due changes nothing in a pass of the loop |
| Properties.OnePass | src/transfer/file_transfer.py:510-545 | one undisturbed pass leaves the sender streaming from the offset after the chunk, with the same left to send |
| Properties.PauseFires | src/transfer/file_transfer.py:510-548 | a pause due now stops the loop with the transfer paused and its offset saved, and nothing more is sent |
| Properties.CancelFires | src/transfer/file_transfer.py:510-548 | a cancel due now ends the loop after ERROR and the cancel header, with no COMPLETE |
| Properties.PauseMidStream | src/transfer/file_transfer.py:598-623 | `pause_transfer` after `k` more chunks: exactly those `k` DATA messages go out and no COMPLETE; nothing is raised; the transfer is live and paused at the offset they reach; the `.resume` record holds that offset; each chunk's offset and then the pause are reported |
| Properties.PausedAfter | src/transfer/file_transfer.py:598-623 | the state the pause leaves after `k` messages: socket, session, `.resume` record and events |
| Properties.SaveResumeAt | src/transfer/file_transfer.py:727-746 | `_save_resume_info` writes the size and the offset of the transfer next to the file, unless the path is empty |
| Properties.CancelMidStream | src/transfer/file_transfer.py:654-689 | `cancel_transfer` after `k` more chunks: exactly those `k` DATA messages go out, then ERROR and the cancel header, and no COMPLETE; the transfer is no longer live, holds the cancel message and has closed its file; no file changes |
| Properties.CancelledAfter | src/transfer/file_transfer.py:654-689 | the state the cancel leaves after `k` messages: socket, session, files and events |
| Properties.AnswerDispatch | src/transfer/file_transfer.py:444-500 | the answer to REQUEST is read as one command frame: ACCEPT starts sending from offset 0, RESUME reads the offset header, REJECT returns false and tells the callback, anything else returns false |
| Properties.AnswerAccepted | src/transfer/file_transfer.py:447-463 | ACCEPT opens the file at offset 0, sets the transfer live and starts the sender thread |
| Properties.AnswerRejected | src/transfer/file_transfer.py:487-497 | REJECT returns false, tells the callback, and leaves the session as it was |
| Properties.AnswerResumed | src/transfer/file_transfer.py:464-486 | RESUME and a header with offset `t` open the file at `t`, set the transferred size to `t` and start the sender thread |
| Properties.OffsetHeaderReads | src/transfer/file_transfer.py:465-476 | the offset in the RESUME header becomes the cursor and the transferred size |
| Properties.ResumeHandshake | src/transfer/file_transfer.py:200-217 | a receiver holding a `.resume` record with offset `t` answers RESUME and that offset; the sender reading that answer starts streaming its file from `t` (with the receiver's ACCEPT still unread when the receiver's path names a directory) |
| Properties.SendingStreams | src/transfer/file_transfer.py:471-486 | after `send_file` accepts a resume at `t`, the sender thread streams the file from `t` |
| Properties.ResumeSeeks | src/transfer/file_transfer.py:294-324 | `_handle_resume` with an offset `t >= 0` and a file open for reading: seek to `t`, transferred size `t`, live and unpaused, then the sender loop; a write failure inside it ends in ERROR |
| Properties.ResumeOffsetRead | src/transfer/file_transfer.py:300-324 | `_handle_resume` reads one whole header and goes on with the offset in it |
| Properties.ResumeRefusesNegative | src/transfer/file_transfer.py:309-324 | a negative offset makes the seek fail: the error is recorded, the transfer stops, and a bare ERROR is written when the socket allows |
| Properties.ResumeDelivers | src/transfer/file_transfer.py:294-324 | `_handle_resume` left alone sends the rest of the file from `t` as DATA messages, then COMPLETE and the digest, and ends complete |
| Properties.CloseCancels | src/transfer/file_transfer.py:748-766 | `close` cancels a live transfer first; it raises exactly when that cancel cannot write, leaving the socket; otherwise the socket is closed and the endpoint disconnected, after ERROR and the cancel header on a live transfer |
| Properties.DataDispatch | src/transfer/file_transfer.py:153-154 | a DATA message at the head of the stream is stored whole |
| Properties.DrainData | src/transfer/file_transfer.py:138-166 | the receive loop works through the DATA messages one by one, as `Received` does |
| Properties.DrainReads | src/transfer/file_transfer.py:138-166 | the receive loop reads the next DATA message and stores it |
| Properties.LoopGoesOn | src/transfer/file_transfer.py:138 | while connected, the receive loop carries on from the state one message leaves |
| Properties.OthersKeptChain | src/transfer/file_transfer.py:269 | "no file but `w` and its record changed" composes |
| Properties.StoreFacts | src/transfer/file_transfer.py:269-287 | a stored chunk is appended to the file open for writing; only the `.resume` record changes besides it, and the progress is reported |
| Properties.StoreKeepsReceiving | src/transfer/file_transfer.py:269-278 | storing a chunk leaves the receiver receiving, at the offset after the chunk |
| Properties.ReceivedSession | src/transfer/file_transfer.py:245-287 | after the DATA messages the transfer is still live, at the end of the content, and has read up to what follows |
| Properties.ReceivedContent | src/transfer/file_transfer.py:269 | after the DATA messages the file has gained exactly the rest of the content |
| Properties.ReceivedOthers | src/transfer/file_transfer.py:269-278 | the DATA messages change no file but the one written and its `.resume` record |
| Properties.ReceivedEvents | src/transfer/file_transfer.py:281-287 | the receiver's callback hears the offset after every chunk: the same reports as the sender's callback |
| Properties.ChunkSplits | src/transfer/file_transfer.py:513 | the rest of the content is the next chunk followed by the rest after it |
| Delivery.HashDocFits | src/transfer/file_transfer.py:552-555 | a digest of up to 300 characters, so also a 32-character MD5 digest, fits in one header frame |
| Delivery.CompleteDispatch | src/transfer/file_transfer.py:157-158 | COMPLETE and the digest, as received, are handled by `_handle_complete` and leave the stream empty |
| Delivery.CompleteEnds | src/transfer/file_transfer.py:326-366 | COMPLETE and the digest at the end of the stream: complete exactly when the digest matches the written file, and then the `.resume` record is gone; otherwise the error is the mismatch message; then the connection is closed |
| Delivery.ReceiveData | src/transfer/file_transfer.py:134-166 | the receive loop works through the DATA messages and stops before COMPLETE, with the file grown by the rest of the content |
| Delivery.ReceiveDelivers | src/transfer/file_transfer.py:134-366 | fed the DATA messages from an offset, then COMPLETE and a digest, the receiver's file has gained the rest of the content and no other file changed; it is complete exactly when the digest is that of the file, it heard the same progress reports as the sender, and it wrote nothing back |
| Delivery.SenderWrites | src/transfer/file_transfer.py:504-574 | what `_send_file_data` appends to the stream is the DATA messages from the offset, then COMPLETE and the digest |
| Delivery.TransferDelivers | src/transfer/file_transfer.py:504-574 | a sender streaming a file from an offset, read by a receiver that holds the file up to that offset, leaves the receiver with exactly the sender's file; both ends are complete at the file size, and the `.resume` record is gone |
| Properties.WireSlice | src/transfer/file_transfer.py:519-555 | what the sender appended after its earlier output is exactly the new messages |
| FrpText.Find | src/frp/connection.py:203 | the first index at which the separator occurs, or none when it never occurs |
| FrpText.Split | src/frp/connection.py:203 | `split` gives at least one piece |
| FrpText.JoinSplit | src/frp/connection.py:203 | joining the pieces of a split gives the text back |
| FrpText.SplitJoin | src/frp/connection.py:125 | splitting lines joined by a character that none of them holds gives the lines back |
| FrpText.NatText | src/frp/connection.py:97 | the decimal text of a natural number is a non-empty string of digits |
| FrpText.IntText | src/frp/connection.py:97 | `f"{i}"` is non-empty digits, with an optional leading `-` |
| FrpText.NatTextValue | src/frp/connection.py:97 | the digits of a number are well grouped and denote the number |
| FrpText.IntTextRoundTrip | src/frp/connection.py:205 | `int()` of a formatted integer is the integer |
| FrpText.CommonLines | src/frp/connection.py:94-103 | the `[common]` block is exactly 8 lines |
| FrpText.ProxyLines | src/frp/connection.py:106-121 | the proxy block is 4 lines for role `server` and 6 for any other role |
| FrpText.CommonSettings | src/frp/connection.py:94-103 | `[common]` holds the server address, the port, the token and `tls_enable = true`, whatever the role |
| FrpText.ServerSettings | src/frp/connection.py:106-112 | for role `server`, the section `[name]` is an xtcp proxy of the local port with the secret key |
| FrpText.VisitorSettings | src/frp/connection.py:113-121 | for any other role, the section `[name_visitor]` is an xtcp visitor of server `name` with the secret key, bound to the local port |
| FrpText.ConfigFileLines | src/frp/connection.py:94-125 | the file written reads back line by line as the lines built: 12 for a server and 14 for a visitor, without a trailing newline |
| FrpText.Lower | src/frp/connection.py:209 | `lower()` keeps the length |
| FrpText.PeerAddress | src/frp/connection.py:201-208 | a port is never recorded without an address |
| FrpText.PeerAddressReads | src/frp/connection.py:201-205 | after `connected: `, a host without `:` followed by `:` and a port: both are read |
| FrpText.ColonSplits | src/frp/connection.py:203 | `host:digits` splits at its only colon |
| Frp.Post | src/frp/connection.py:60-70 | `_update_status` sets the status, and the callback hears it only when one is set; the connection fields are kept |
| Frp.ObservePosts | src/frp/connection.py:183-210 | a line of output posts exactly the status its classification names, and nothing when it names none |
| Frp.ObserveConnects | src/frp/connection.py:195-198 | a line sets `connected` exactly when it announces the P2P connection, and no line clears it |
| Frp.ObserveAllNext | src/frp/connection.py:182-210 | the lines are read one after another |
| Frp.ObserveAllHeard | src/frp/connection.py:182-210 | the callback hears every status the lines post, once each and in order |
| Frp.ObserveAllStatus | src/frp/connection.py:182-210 | the status shown is the last one the lines post, or the earlier one when none posts |
| Frp.ObserveAllConnects | src/frp/connection.py:182-210 | after the lines, `connected` holds exactly when it held before or some line announced the connection |
| Frp.AnnouncedLine | src/frp/connection.py:195 | a line that announces the connection counts as one |
| Frp.AnnouncingLine | src/frp/connection.py:195 | when some line announced the connection, there is one |
| Frp.ObserveAllPeerKnown | src/frp/connection.py:201-208 | reading lines never records a port without an address |
| Frp.FrpConnection.constructor | src/frp/connection.py:25-49 | the settings are stored; nothing is configured, started or connected, and the status is "未连接" |
| Frp.FrpConnection.SetStatusCallback | src/frp/connection.py:51-58 | only whether a callback is set changes |
| Frp.FrpConnection.UpdateStatus | src/frp/connection.py:60-70 | the watched fields become `Post`'s |
| Frp.FrpConnection.ConfigText | src/frp/connection.py:94-125 | the text built is the configuration lines joined by newlines |
| Frp.FrpConnection.GenerateConfig | src/frp/connection.py:72-128 | the three settings are stored; the joined lines are written to `frpc.ini` under `p2pfile` in the temporary directory; that path is recorded and returned, and the connection state is kept |
| Frp.FrpConnection.StartFrpc | src/frp/connection.py:130-170 | without a configuration it returns false and changes nothing; a missing `frpc.exe` or a launch that raises posts the reason and returns false; otherwise frpc is started and the status says the connection is under way |
| Frp.FrpConnection.ObserveLine | src/frp/connection.py:183-210 | one line of output has the effect of `Observe` |
| Frp.FrpConnection.RecordPeer | src/frp/connection.py:196-205 | the connection is up; the address and the port replace the recorded ones, each only when it was read |
| Frp.FrpConnection.MonitorFrpc | src/frp/connection.py:172-216 | nothing happens unless frpc was started; otherwise every line is observed in order, then the connection is marked down with the status "frpc已断开连接" |
| Frp.FrpConnection.ConnectionInfo | src/frp/connection.py:238-253 | the info is exactly the role, server name, local port, connection flag, status, peer address and peer port |

## Left out

- Sockets, `connect`, `listen` and `_accept_connection`, and the daemon threads, are not modelled. The socket is a pair of byte streams. `recv(n)` returns `min(n, available)` bytes, so a short read happens only at the end of the stream. The end of the stream stands for the peer closing.
- The lock and the concurrency between the receive loop and the sender thread are not modelled. A pause or cancel by the host during the sender loop is an `Interrupt` applied after a given number of chunks; `Properties.PauseMidStream` and `Properties.CancelMidStream` state what such a pause or cancel leaves behind.
- MD5 is left uninterpreted: the digest is a parameter of the endpoint, applied to the file's contents. An unreadable file hashing to `""` (`src/transfer/file_transfer.py:723-725`) cannot happen, because every file in the map is readable.
- Python's `str(e)` for an exception is a parameter (`describe`), except for the "连接已关闭" raised by the reassembly loop.
- Time, speed and progress ratios are not modelled: the `timestamp` members, `start_time`, `speed`, `progress` and `time.sleep` involve floats or the clock.
- Logging is not modelled.
- The callback is reduced to the list of event kinds it was given. Its answer to a request is a parameter (`approve`). The dictionaries passed with each event are not modelled, except the transferred size of `progress`.
- The JSON text format is replaced by a self-delimiting byte encoding of the same documents (strings, integers and null), for which the round trip is proved. Floats, booleans, nested values and a header longer than 1024 bytes that is cut by `recv` are not modelled.
- Engine.RequestStep: a request whose `file_size` is missing or not an integer is answered with a bare ERROR before the callback is asked, so the model never emits the request event for it. The source asks the callback first and accepts such a request. With a callback installed, the transfer then fails at the first chunk, where the progress report compares `file_size > 0` (src/transfer/file_transfer.py:281-287). Without a callback, nothing reads `file_size` and the transfer completes.
- Engine.ResumeOrRestart: a `.resume` record whose `transferred_size` is not an integer is treated like an unreadable one, and the file starts afresh. The source sends the value on and fails later.
- Engine.ResumeStep: an offset that is not an integer is handled like a header that does not decode.
- Engine.StartReceiving: the download directory `<cwd>/downloads` is a parameter, and `os.makedirs` is not modelled. `os.path.join` is modelled for POSIX paths. A path is known to be a directory only by its last component (empty, `.` or `..`). A name that reaches an existing directory under another name, or that passes through a regular file, is accepted as a file, where the source's `open` or `os.makedirs` raises and the except block answers with a bare ERROR.
- Engine.Seek: `seek` on a file opened for appending does not move where writes go. This matches Python's `'ab'` mode.
- Transfer.FileTransfer.SendChunkData: requires a writable socket, as after a successful DATA command. In the source the length and the chunk are written only after DATA went out.
- `connect`, `listen`, `__del__` and the `host`/`port` fields are not modelled, because they only deal with sockets and threads.
- Frp.FrpConnection.StartFrpc: launching frpc is left out. Whether `frpc.exe` exists, and the text of an exception raised while launching it, are parameters. The monitoring thread is started by calling `MonitorFrpc` with the lines frpc prints.
- Frp.FrpConnection.MonitorFrpc: the `readline` loop on a live process is replaced by the finite list of lines printed before frpc exits. The dead locals `connected` and `xtcp_started` are not modelled.
- `stop_frpc` and `__del__` of `FrpConnection` are not modelled, because they terminate the subprocess.
- Frp.FrpConnection.GenerateConfig: the temporary directory is a parameter, and creating it is not modelled. The files written are a map from path to text.
- FrpText.Lower: only ASCII letters are lowered. For finding `error` and `fail` this agrees with Python's full case mapping.
- FrpText.ParseInt: only ASCII digits are read. Python's `int()` also accepts other Unicode decimal digits.
- FrpText.ServerSettings: proved for a server name other than `common`. A server named `common` would share its header with the common section.
- The status callback of `FrpConnection` is reduced to the list of statuses it was given. The lock of `FrpConnection` is not modelled.
- The user interface in `src/ui` and `src/main.py` is not part of this model.
