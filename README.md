# ubores UDP relay — a Dafny model of its codec, authenticator and connection registry

The relay accepts datagrams from clients, keeps one short-lived connection per client and
frames every packet with an 8-byte header inside a 512-byte buffer. This project models three
sequential pieces of it:

- **Wire codec** (`wire.dfy`, module `Wire`, after `src/shared.rs`): the message-type tags, the
  header and its big-endian encoding (`Header::to_bytes`), and the packet buffer
  (`BytePacketBuffer`): a class over a 512-byte array with a read cursor `pos`, whose
  `read`, `read_u16` and `read_header` are methods that move the cursor and whose `read_data`
  only reads. `ReadPayload` is the corrected payload read (see "## Findings"). The cursor's behaviour is also given as a small state machine (`ReadOp`,
  `NextPos`, `Succeeds`, `Successes`), which the methods are proved against and about which
  the lemmas on sequences of reads are proved. `Header::new` is the `Header` datatype's
  constructor; the private accessor `pos()` is the field `pos`.
- **Authenticator** (`auth.dfy`, module `Auth`, after `src/auth.rs`): the encryption-method
  tags, `Authenticator::new` and the dispatch of `encrypt` / `decrypt` to AES-128-GCM (keyed by
  the first 16 key bytes) or ChaCha20-Poly1305 (keyed by all 32). The cipher libraries are a
  parameter of type `Ciphers`: a pair of seal/open function values. `get_nonce` is `GetNonce`,
  about which `NewAuthenticator`'s contract states what it returns.
- **Connections and registry** (`server.dfy`, module `Registry`, after `src/server.rs`): the
  `Conn` class with its liveness test and refresh, and the `Server` class with its two maps and
  `check_alive`.

`results.dfy` holds the `Result` type the three share.

Three places where the code does less than its own comments and messages suggest. The model
follows the code:

- `Server` pairs its two maps by connection id (src/server.rs:40-43). Under the comment
  "remove dead connection", `check_alive` removes the entry from `conns` only (src/server.rs:89-91),
  so the connection's authenticator stays in `auth`. The removal goes through a clone of the
  `Arc`, which shares the one map.
- `read_data` reports "it might already been read" for a cursor past 7 (src/shared.rs:119-120).
  It succeeds only with the cursor at 7, which `read_header` never leaves it at. It never moves
  the cursor, so two calls in a row both succeed. See "## Findings".
- `Authenticator::new` checks that a ChaCha20-Poly1305 key is 32 bytes long (src/auth.rs:63).
  The key's type is already a 32-byte array (src/auth.rs:24), so the check always passes and
  `BadKeyLength` is never returned.

## Model

| member | source | states |
|---|---|---|
| `Wire.MessageTag` | src/shared.rs:22-28 | each message type's declared tag lies in 1..5 |
| `Wire.MessageFromNum` | src/shared.rs:31-39 | the result is ERRCODE exactly when the number is not 1, 2, 3 or 5, and otherwise the type whose declared tag is that number |
| `Wire.MessageTagRoundTrip` | src/shared.rs:22-39 | decoding a message type's tag gives the type back |
| `Wire.HighByte` | src/shared.rs:66 | `conn_id >> 8` is the word divided by 256 |
| `Wire.LowByte` | src/shared.rs:68 | the high byte times 256 plus `conn_id & 0xFF` is the word |
| `Wire.LowByteIsRemainder` | src/shared.rs:68 | `w & 0xFF` is the word modulo 256 |
| `Wire.Join` | src/shared.rs:99 | `(hi << 8)` OR-ed with `lo` weighs 256 * hi + lo, and its high and low bytes are hi and lo |
| `Wire.SplitJoin` | src/shared.rs:66-72 | joining a word's high and low bytes gives the word back |
| `Wire.HeaderBytes` | src/shared.rs:55-74 | 8 bytes: packet_num, msg_type, auth_type, fragment, then 256*b[4]+b[5] = conn_id and 256*b[6]+b[7] = data_len |
| `Wire.DecodeHeader` | src/shared.rs:103-116 | every 8 bytes are the encoding of the header read from them |
| `Wire.HeaderRoundTrip` | src/shared.rs:55-116 | reading the bytes `to_bytes` writes gives the same header back |
| `Wire.ToBytes` | src/shared.rs:55-74 | `to_bytes` always returns `Ok`, holding the header's 8-byte encoding |
| `Wire.NextPos` | src/shared.rs:89-128 | the cursor never moves back; `read_data` never moves it; a header read moves it from 0 to 8 and nowhere else; a payload read that succeeds moves it to just past the payload, and one that fails leaves it |
| `Wire.NoHeaderAfterStart` | src/shared.rs:103-105 | once the cursor has left 0, no later header read succeeds, whatever reads follow |
| `Wire.HeaderReadAtMostOnce` | src/shared.rs:103-116 | in any sequence of reads on a fresh buffer, at most one header read succeeds |
| `Wire.NoDataPastSeven` | src/shared.rs:118-120 | once the cursor is past 7, no later `read_data` succeeds |
| `Wire.DataNeverFollowsHeader` | src/shared.rs:103-128 | after a successful header read, no `read_data` in any later sequence of reads succeeds |
| `Wire.PayloadFollowsHeaderRead` | src/shared.rs:103-128 | with the corrected guard, the payload read right after a header read succeeds, whatever its length |
| `Wire.NoPayloadPastHeader` | src/shared.rs:118-120 | once the cursor is past 8, no later corrected payload read succeeds |
| `Wire.PayloadReadAtMostOnce` | src/shared.rs:118-120 | after a successful payload read of at least one byte, no later payload read succeeds, whatever reads follow ("already been read") |
| `Wire.PacketBuffer.constructor` | src/shared.rs:78-83 | a new buffer holds 512 zero bytes with the cursor at 0 |
| `Wire.PacketBuffer.Read` | src/shared.rs:89-96 | succeeds exactly when pos < 512, returning buf[pos] and moving the cursor by exactly one; otherwise fails with the cursor unchanged; never writes the buffer |
| `Wire.PacketBuffer.ReadU16` | src/shared.rs:98-101 | succeeds exactly when two bytes remain, returning the big-endian word of buf[pos], buf[pos+1] and moving the cursor by two; with one byte left the cursor moves past it and the call fails |
| `Wire.PacketBuffer.ReadHeader` | src/shared.rs:103-116 | with the cursor at 0, returns the header decoded from buf[0..8] and leaves the cursor at 8; anywhere else fails and changes nothing |
| `Wire.PacketBuffer.ReadData` | src/shared.rs:118-128 | fails unless the cursor is at 7 (already read past 7, not finished before); at 7 returns the length+1 bytes buf[8..length+9]; never moves the cursor |
| `Wire.PacketBuffer.ReadPayload` | src/shared.rs:118-128 | corrected `read_data`: succeeds exactly with the cursor at 8, returning the `length` bytes buf[8..8+length] and moving the cursor to 8+length; past 8 fails as "already been read", before 8 as "not finished", either way leaving the cursor |
| `Wire.PayloadFollowsHeader` | src/shared.rs:103-128 | for a packet laid out as header then payload, with the header read, the header decodes back, the corrected payload read succeeds, and the bytes it returns are exactly the payload |
| `Wire.ReadDataFailsAfterHeader` | src/shared.rs:118-120 | with the cursor where `read_header` leaves it, `read_data` fails as "already been read" |
| `Auth.FromNum` | src/auth.rs:32-38 | 1 gives AES, 2 gives CHACHA, every other number gives UNSAFE, each in both directions |
| `Auth.ToNum` | src/auth.rs:40-46 | the tag is at most 2 and decodes back to the method |
| `Auth.NewAuthenticator` | src/auth.rs:50-76 | fails exactly for UNSAFE; for AES and CHACHA stores the id, key and method given, and `get_nonce` (`GetNonce`) of the result is the drawn nonce |
| `Auth.Encrypt` | src/auth.rs:78-97 | UNSAFE fails; AES seals with key[0..16] and the stored nonce; CHACHA with the whole key and the stored nonce; a cipher failure is returned as is |
| `Auth.Decrypt` | src/auth.rs:99-118 | UNSAFE fails; AES opens with key[0..16] and the stored nonce; CHACHA with the whole key and the stored nonce; a cipher failure is returned as is |
| `Auth.EncryptDecryptRoundTrip` | src/auth.rs:78-118 | when both cipher libraries open what they seal, whatever an authenticator encrypts it decrypts back |
| `Auth.AesIgnoresKeyTail` | src/auth.rs:81-105 | two AES authenticators that agree on key[0..16] and the nonce encrypt and decrypt alike |
| `Auth.NonceReusedForEveryMessage` | src/auth.rs:50-94 | every message an authenticator encrypts is sealed under the one nonce drawn at its construction, with key[0..16] for AES and the whole key for CHACHA |
| `Registry.Elapsed` | src/server.rs:61 | the time since creation, and zero for a clock reading before it |
| `Registry.Alive` | src/server.rs:60-66 | alive exactly when the clock is strictly before creation time plus ttl seconds |
| `Registry.DeadStaysDead` | src/server.rs:60-66 | a connection that is dead stays dead at every later time unless refreshed |
| `Registry.Conn.constructor` | src/server.rs:47-59 | conn_id is the address's port, ttl is CONN_LIFETIME (65), created_at is now; the connection is alive at once |
| `Registry.Conn.IsAlive` | src/server.rs:60-66 | true exactly when now < created_at + ttl seconds (strict: dead at the ttl mark) |
| `Registry.Conn.ResetLifetime` | src/server.rs:68-71 | always Ok; created_at becomes now and nothing else changes; alive at every time before now + ttl and dead from then on |
| `Registry.Server.constructor` | src/server.rs:75-82 | requires a non-empty port range; both maps start empty |
| `Registry.Server.CheckAlive` | src/server.rs:84-93 | the id must be registered; a dead connection is removed from `conns` and nothing else changes; a live one leaves both maps as they were; `auth` is never touched |

## Left out

- Port allocation, sending and padding of outgoing packets, a buffer write operation and a
  header template inside `Conn` do not exist in the modelled files and are not modelled.
- The AES-128-GCM and ChaCha20-Poly1305 ciphers are not modelled: they are function values
  passed in. That opening inverts sealing is a hypothesis of `EncryptDecryptRoundTrip`, not
  something proved.
- The random nonce of `Authenticator::new` is a parameter.
- The system clock is a parameter `now`, counted in nanoseconds. The clock's own range is not
  modelled.
- Concurrency is not modelled: the two shared concurrent maps are plain maps updated in
  sequence. In `check_alive`, `conn` from `get` (src/server.rs:87) is a guard that holds its
  shard's read lock until the function returns. `remove` (src/server.rs:91) needs the same
  shard's write lock, and dashmap documents that this may deadlock. So as written, the path for a
  dead connection may never return. `Registry.Server.CheckAlive` assumes the removal completes.
- Loading the YAML user/key configuration, and imports the files do not use, are not
  modelled.
- The constants `CONTROL_PORT`, `SAFE_MAX_SIZE` and `MAX_RETRY` drive no logic in these files
  and are left out.
- `Uuid` and the IP part of a socket address are opaque types.
- Panics are preconditions: `Server::new` on an empty range, `check_alive` on an unknown id,
  `read_data` at cursor 7 with `length + 9 > 512`, and likewise `ReadPayload` at cursor 8 with
  `length + 8 > 512`.
- Wire.PacketBuffer.ReadPayload: an empty payload (`length` 0) leaves the cursor at 8, so it can
  be read again. The once-only rule (`Wire.PayloadReadAtMostOnce`) covers payloads of at least
  one byte.
- The cursor is an unbounded `nat`, so a `usize` overflow of `pos` is not modelled. The reads
  never move it past 512.
- The registry maps are keyed by the connection id's numeric value, a `nat`, not by a 16-bit
  word.

## Findings

| source | as written | input that shows it | evidently intended | confidence | as-written member | corrected member |
|---|---|---|---|---|---|---|
| src/shared.rs:118-128 | `read_data` succeeds only with the cursor at 7 and returns `buf[8..length+9]`, which is length+1 bytes | any packet: after `read_header` succeeds the cursor is 8, so `read_data(h.data_len)` fails with "already been read"; with the cursor set to 7, `read_data(0)` returns 1 byte | succeed right after the header (cursor at 8), return the `length` payload bytes `buf[8..8+length]`, and move the cursor past them, so that a second read fails as "already been read" (the `&mut self` receiver and the message at src/shared.rs:119-120) | high; not executed | `Wire.PacketBuffer.ReadData`, `Wire.DataNeverFollowsHeader`, `Wire.ReadDataFailsAfterHeader` | `Wire.PacketBuffer.ReadPayload`, `Wire.PayloadFollowsHeader`, `Wire.PayloadFollowsHeaderRead`, `Wire.PayloadReadAtMostOnce` |
