# ricq message core in Dafny

This project models two pieces of decision logic from ricq, a Rust client library for
the QQ instant-messaging protocol.

1. **The element classifier** from `ricq-core`.
   - `From<msg::elem::Elem> for RQElem` turns a raw protobuf message element into one
     of thirteen typed variants. Anything it does not understand becomes the
     passthrough variant `Other`, which keeps the original element.
   - `Display for RQElem` renders a preview of an element.
   - `fmt_extract_attr` pulls one attribute out of an XML or JSON blob.
   - `impl_from!` produces the injections into `RQElem`.
2. **The decisions of the client session API** from `ricq`:
   - `update_online_status`: the length check on the custom wording;
   - `translate`: the translation-count check;
   - `sync_all_message`: the paging loop with its acknowledgement and sync-cursor
     ("cookie") rules;
   - `multi_msg_apply_up` and `upload_msgs`: the long/forward discriminator, the
     session-key check, and the try-each-endpoint fallback;
   - `download_msgs`: the result-code check and the choice of download address;
   - `send_message`: the non-negative nonce and the receipt.

All of it is written as pure functions. Everything a collaborator would answer is an
input to the function:

- the transport reply;
- the decoded response;
- the nested protobuf decoders;
- the highway transfer outcome;
- the clock;
- the random word.

Each session operation returns its result together with the list of requests the
call made, in order: a `Run` for most operations, a `SyncRun` for the sync loop and a
`DownloadRun` for the download. This lets the contracts say which requests a failing
call never makes.

Files:

- `wrappers.dfy`: `Option` and `Result`.
- `bytes.dfy`: bytes and byte strings (module `Bytes`).
- `text_search.dfy`: first and last occurrence of a pattern. These are Rust's
  `split_once` and `rsplit_once`.
- `elem.dfy`: the element classifier (module `Elem`).
- `protocol.dfy`: errors, requests, `Run`, and the integer casts (module `Protocol`).
- `client_api.dfy`: online status, translation and message sending (module `ClientApi`).
- `message_sync.dfy`: the sync loop and the cookie rules (module `MessageSync`).
- `multi_msg.dfy`: long and forwarded message upload and download (module `MultiMsg`).

## Behaviour of the code worth noting

- `upload_msgs` sends the apply-up request first and only then checks the highway
  session key. So an empty key fails after one network request.
- `download_msgs` pops the last IP and the last port. Each list is popped on its own,
  so when the lists differ in length the pair is not positional.
- The cookie update has four cases: response types 0, 1 and 2, and any other type,
  which changes neither cursor. A cursor is only overwritten when the page carries a
  value for it.
- The wording-length failure is the general-purpose error
  `RQError::Other("invalid wording length")`.
- A synced message without a head makes the acknowledgement's `unwrap` panic. The
  model ends the loop with `Panicked`.
- `upload_msgs` never reads the apply-up response's `result` field.

## Model

| member | source | states |
|---|---|---|
| `Elem.Classify` | ricq-core/src/msg/elem/mod.rs:54-109 | Classification is defined on every element. An `Other` result holds exactly the input element; every other result is built from the input element itself, or from its decoded nested message. The result is `Other` exactly for unlisted kinds and for common elements whose nested message did not decode into a typed element. Every typed result except a nested-decoded one (flash image, extended face) gives back exactly the input element through `Restore`. A video file becomes `VideoFile`, and a market face keeps the element's face name as its caption. |
| `Elem.ClassifyText` | ricq-core/src/msg/elem/mod.rs:57-64 | A text element is `At` exactly when `attr6_buf` is present and non-empty; otherwise it is `Text`. An absent buffer counts as empty. |
| `Elem.ClassifyFlash` | ricq-core/src/msg/elem/mod.rs:68-80 | Service type 3 gives a flash group image when the decode has a troop picture, otherwise a flash friend image when it has a C2C picture. A failed decode, or a decode with neither picture, gives `Other` holding the original element. |
| `Elem.ClassifyExtendedFace` | ricq-core/src/msg/elem/mod.rs:81-87 | Service type 33 gives `Face` when the nested decode succeeds and `Other` holding the original element when it fails. |
| `Elem.ClassifyPassthrough` | ricq-core/src/msg/elem/mod.rs:88-106 | Any other service type, including an absent one (read as 0), and every unlisted element kind becomes `Other` holding exactly the input. |
| `Elem.ClassifyMarketFace` | ricq-core/src/msg/elem/mod.rs:90-98 | The two dice captions give `Dice`, the finger-guessing caption gives `FingerGuessing`, and every other caption gives `MarketFace`. Each case is an if-and-only-if. |
| `Elem.Render` | ricq-core/src/msg/elem/mod.rs:111-126 | The eight textual variants render their inner text followed by exactly one space. All other variants render the empty string. |
| `Elem.RenderClassified` | ricq-core/src/msg/elem/mod.rs:54-126 | The preview of a classified element is empty exactly for the raw kinds that render nothing: market faces, video files, unlisted kinds, and common elements that did not decode into a typed element. |
| `Elem.ExtractAttr` | ricq-core/src/msg/elem/mod.rs:128-144 | The output is non-empty exactly when there is a last `begin` marker with an `end` marker after it. The output is then ` name='v'`, where `v` is the text between those two markers. |
| `Elem.ExtractedValueAvoidsMarkers` | ricq-core/src/msg/elem/mod.rs:136-140 | The extracted value contains no complete non-empty `end` marker and no complete non-empty `begin` marker. |
| `Elem.InjectionsKeepArgument` | ricq-core/src/msg/elem/mod.rs:146-167 | Each `impl_from!` injection wraps its argument unchanged. `From<Box<Elem>>` gives `Other` without classifying. |
| `TextSearch.RSplitOnce` | ricq-core/src/msg/elem/mod.rs:137-137 | Splits at the last occurrence of the pattern, and returns `None` exactly when the pattern does not occur. |
| `TextSearch.SplitOnce` | ricq-core/src/msg/elem/mod.rs:138-138 | Splits at the first occurrence of the pattern, and returns `None` exactly when the pattern does not occur. |
| `ClientApi.UpdateOnlineStatus` | ricq/src/client/api/mod.rs:28-45 | A custom wording with 0 characters or more than 4 fails with "invalid wording length" and sends no request. Otherwise exactly one status request is sent and the reply's outcome is returned. |
| `ClientApi.Utf8LenAtLeastChars` | ricq/src/client/api/mod.rs:33-37 | The UTF-8 byte length is at least the character count. So every wording that a 1..4 byte limit would admit is admitted by the character limit. |
| `ClientApi.WordingCountsCharacters` | ricq/src/client/api/mod.rs:33-37 | Four CJK characters (12 bytes) pass validation: the status request is sent with that wording. Five characters fail, and the empty wording sends nothing. |
| `ClientApi.Translate` | ricq/src/client/api/mod.rs:88-109 | Succeeds exactly when the reply decoded and has one translation per input, and then returns the translations unchanged. A count mismatch fails with "translate length error". A collaborator error is passed on unchanged. |
| `ClientApi.TranslateCountMismatch` | ricq/src/client/api/mod.rs:105-108 | Three inputs with two translations give the count error. |
| `ClientApi.Nonce` | ricq/src/client/api/mod.rs:407-407 | `(r >> 1) as i32` is non-negative and below 2^31 for every unsigned 32-bit `r`. |
| `ClientApi.NonceCoversNonNegative` | ricq/src/client/api/mod.rs:407-407 | Every non-negative i32 is a possible nonce. Only the lowest random bit is lost. |
| `ClientApi.SendMessage` | ricq/src/client/api/mod.rs:399-428 | The receipt waiter is registered under the nonce before the packet is sent. The waiter stays registered when sending fails. The packet carries the sequence number and the nonce. On success the receipt holds exactly that sequence number, that nonce and the second clock reading. |
| `Protocol.AsU16` | ricq/src/client/api/mod.rs:326-326 | `as u16` keeps the value modulo 2^16 and leaves 16-bit values unchanged. |
| `Protocol.AsI32` | ricq/src/client/api/mod.rs:407-407 | `as i32` is the two's-complement reinterpretation. It is non-negative exactly for values below 2^31. |
| `MessageSync.AckItems` | ricq/src/client/api/mod.rs:214-231 | Gives one acknowledgement item per message, in order, built from its head. Gives `None` (the `unwrap` panic) exactly when some message has no head. |
| `MessageSync.UpdateCookies` | ricq/src/client/api/mod.rs:236-259 | Type 0 may set both cursors, type 1 only the sync cursor, type 2 only the public-account cursor, and any other type neither. A cursor changes only when the page carries a value for it. |
| `MessageSync.UpdateCookiesIdempotent` | ricq/src/client/api/mod.rs:236-259 | Applying the same page twice leaves the cursors as applying it once. |
| `MessageSync.FullUpdateIsBothPartial` | ricq/src/client/api/mod.rs:237-257 | The type-0 update equals the type-1 update composed with the type-2 update, in either order. |
| `MessageSync.NoCookieNoChange` | ricq/src/client/api/mod.rs:236-259 | A page with no cookies, or of an unknown type, changes nothing. |
| `MessageSync.SyncLoop` | ricq/src/client/api/mod.rs:204-265 | The first request of an iteration carries that iteration's flag and clock reading. The loop makes no request only when no page outcome is left. |
| `MessageSync.SyncAllMessage` | ricq/src/client/api/mod.rs:199-267 | Returns exactly the messages of the delivered pages, in order. Leaves the cursors as those pages set them. Makes its first request with flag 0. Makes exactly the requests `CallsFor` describes for the pages it reaches. |
| `MessageSync.SyncLoopCalls` | ricq/src/client/api/mod.rs:206-265 | The requests are, page by page in order, one fetch with the page's flag and one acknowledgement carrying that page's items for every delivered page. Then come the fetch of the failing page, if one is reached, and its acknowledgement only when its items could be built. Nothing follows, so no page is fetched twice. |
| `MessageSync.CallsForCons` | ricq/src/client/api/mod.rs:206-264 | The page-by-page request list splits into the first page's requests followed by the rest's, which start from the first page's flag. |
| `MessageSync.SyncAllMessageLoop` | ricq/src/client/api/mod.rs:204-266 | The mutable loop, written as ricq writes it, computes the same messages, cursors and end as the recursive model. |
| `MessageSync.DeliveredIsAcceptedPrefix` | ricq/src/client/api/mod.rs:206-264 | The delivered pages are all accepted (fetched, headed and acknowledged). Only the last of them can say stop. The next page, if the loop reaches it, was not accepted. |
| `MessageSync.SyncLoopDelivers` | ricq/src/client/api/mod.rs:206-265 | A failed fetch or acknowledgement truncates the result and never includes the failing page. The messages and cursors are those of the delivered pages. |
| `MessageSync.SyncLoopEnd` | ricq/src/client/api/mod.rs:206-265 | Each way the loop can end (stop flag, fetch failure, acknowledgement failure, panic, no outcomes left) holds exactly when the first page after the delivered ones is in the matching condition. |
| `MessageSync.SyncLoopFlags` | ricq/src/client/api/mod.rs:200-264 | The first request carries the starting flag. Each later request carries the flag of the page before it. No request follows a page that said stop. |
| `MessageSync.PartialResultOnSyncFailure` | ricq/src/client/api/mod.rs:207-213 | Two good pages and then a failed fetch return the two pages' messages as a result, not as an error. |
| `MessageSync.AckFailureDropsPage` | ricq/src/client/api/mod.rs:214-235 | A page whose acknowledgement fails is missing from the result. |
| `MultiMsg.KindOfBusiType` | ricq/src/client/api/mod.rs:293-293 | Only 1 and 2 decode to an upload kind. |
| `MultiMsg.BusiTypeRoundTrip` | ricq/src/client/api/mod.rs:293-293 | Encoding and decoding the long/forward kind are mutually inverse. |
| `MultiMsg.ApplyUpRequest` | ricq/src/client/api/mod.rs:284-301 | The apply-up request carries the data length, the digest and the destination. Its discriminator is 1 for a long message and 2 otherwise, and it decodes back to that kind. |
| `MultiMsg.Zip` | ricq/src/client/api/mod.rs:322-325 | Pairs elements position by position, truncated to the shorter list. |
| `MultiMsg.Endpoints` | ricq/src/client/api/mod.rs:322-327 | The candidates are the IP/port pairs in order, as many as the shorter list has, with each port cut to 16 bits. |
| `MultiMsg.TryEndpoints` | ricq/src/client/api/mod.rs:333-351 | Makes one transfer per candidate, in order, up to and including the first success. It succeeds exactly when some candidate succeeds. When all fail, every candidate was tried. |
| `MultiMsg.UploadMsgs` | ricq/src/client/api/mod.rs:304-352 | An apply-up error or an empty session key fails with no transfer. Otherwise the call succeeds with the resource id exactly when some candidate succeeds, and transfers go to the candidates in order up to the first success. When all fail, the call fails with the upload error after trying every candidate. |
| `MultiMsg.UploadFallsBackInOrder` | ricq/src/client/api/mod.rs:319-351 | With three candidates where only the third works, the call makes three transfers and succeeds. The unpaired fourth IP is never tried. |
| `MultiMsg.DownloadMsgs` | ricq/src/client/api/mod.rs:371-396 | The only request made is the apply-down for the given resource id. A non-zero result code fails, and no URL is built. A prepared URL ends with the raw response path and uses the response key. Its address is the last IP and the last port. |
| `MultiMsg.DownloadPrefixChoice` | ricq/src/client/api/mod.rs:379-384 | The fixed host is used exactly for channel type 2. An address is used exactly when both lists are non-empty. Otherwise the call fails with a missing `down_ip` before a missing `down_port`. |
| `MultiMsg.DownloadIgnoresEarlierCandidates` | ricq/src/client/api/mod.rs:382-382 | Replacing every earlier IP or port leaves the outcome unchanged: there is no fallback to other candidates. |

## Left out

- `src/lib.rs` holds only module declarations and re-exports.
- Async execution and locking are not modelled: the engine's reader-writer lock,
  `send` versus `send_and_wait`, and the receipt-waiter cache with its one-shot
  channels. Registering a waiter is recorded as a request; the cache itself and its
  eviction are not modelled.
- Packet building and decoding (`build_*_packet`, `decode_*`) are not modelled.
  Requests are symbolic values. Each decoded response, or the transport or decode
  error, is one input per step. The separate failure points of `send_and_wait` and of
  decoding are merged into that one input.
- `md5::compute`, `rand::random` and `UNIX_EPOCH.elapsed()` are parameters.
- `group_code2uin`, `calculate_validation_data` and `build_long_req` are collaborators.
  The destination uin and the serialized data are inputs, and the long request is a
  symbolic `LongReq`.
- The per-element conversions in the `elem` sub-modules (`At::from`, `GroupImage::flash`
  and the others) are not modelled. Nor are their `Display` implementations. Each
  typed variant carries the protobuf value its conversion was given, and the inner
  `Display` is the function parameter `show`.
- The caption of a market face is taken as already-decoded text.
- `Elem.Classify`: the `Restore` round trip recovers the input only because each typed
  variant here stores the protobuf value its conversion was given. In ricq the
  conversions (`Text::from`, `At::from`, `Dice::from` and the others) build their own
  structs, which may drop fields, so only `Other` is known to keep the element
  unchanged. A flash image or an extended face also drops the rest of its common
  element, such as the business type and whether `pb_elem` was present.
- Formatter write errors are not modelled: writing to the formatter always succeeds.
- The decimal formatting of the result code in the `download_msgs` error is not
  modelled. The error keeps the message prefix and the code as `OtherCode`.
- The rest of `download_msgs` is not modelled. The fetch, decryption, decompression
  and decoding are an unfinished `todo!()` in ricq, so the model stops at
  `Unfinished` with the URL and key.
- `SocketAddr` formatting and the lossy UTF-8 conversion of the path are not modelled.
  The URL is kept as a structured prefix plus the raw path bytes.
- In the sync loop, a server that never sends the stop flag makes the Rust code loop
  forever. The model reads a finite list of page outcomes and ends with
  `ScriptExhausted` when the list runs out.
- The thin forwards `update_signature`, `update_profile_detail`, `refresh_status`,
  `get_allowed_clients`, `send_like`, `image_ocr`, `get_summary_info`,
  `delete_online_push`, `sync_message`, `multi_msg_apply_down` and `delete_message`
  are not modelled as operations. They carry no decisions of their own. Their
  requests appear in the traces where the modelled operations make them.
- `ClientApi.Nonce`: the random word is an unsigned integer in `[0, 2^32)`, and `>> 1`
  on it is halving. This is exact for unsigned values, but it is not stated over
  bit-vectors.
