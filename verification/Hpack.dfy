/** HPACK peers as they start: the static table and the Huffman code of RFC 7541. */
module Hpack {
  import opened Common
  import opened HpackTable
  import opened HpackCodec
  import opened HpackSession
  import HuffmanCode
  import opened HpackSizes

  function Ascii(s: string): Bytes {
    seq(|s|, i requires 0 <= i < |s| => if s[i] < 128 as char then s[i] as int else 63)
  }

  /** `STATIC_TABLE` (appendix A of RFC 7541). */
  function StaticNames(): seq<(string, string)> {
    [
      (":authority", ""), (":method", "GET"), (":method", "POST"), (":path", "/"), (":path", "/index.html"),
      (":scheme", "http"), (":scheme", "https"), (":status", "200"), (":status", "204"), (":status", "206"),
      (":status", "304"), (":status", "400"), (":status", "404"), (":status", "500"), ("accept-charset", ""),
      ("accept-encoding", "gzip, deflate"), ("accept-language", ""), ("accept-ranges", ""), ("accept", ""),
      ("access-control-allow-origin", ""), ("age", ""), ("allow", ""), ("authorization", ""),
      ("cache-control", ""), ("content-disposition", ""), ("content-encoding", ""), ("content-language", ""),
      ("content-length", ""), ("content-location", ""), ("content-range", ""), ("content-type", ""),
      ("cookie", ""), ("date", ""), ("etag", ""), ("expect", ""), ("expires", ""), ("from", ""), ("host", ""),
      ("if-match", ""), ("if-modified-since", ""), ("if-none-match", ""), ("if-range", ""),
      ("if-unmodified-since", ""), ("last-modified", ""), ("link", ""), ("location", ""), ("max-forwards", ""),
      ("proxy-authenticate", ""), ("proxy-authorization", ""), ("range", ""), ("referer", ""), ("refresh", ""),
      ("retry-after", ""), ("server", ""), ("set-cookie", ""), ("strict-transport-security", ""),
      ("transfer-encoding", ""), ("user-agent", ""), ("vary", ""), ("via", ""), ("www-authenticate", "")
    ]
  }

  function StaticTable(): (table: seq<Header>)
    ensures |table| == 61
  {
    seq(61, i requires 0 <= i < 61 => Header(Ascii(StaticNames()[i].0), Ascii(StaticNames()[i].1)))
  }

  /** `Encoder::new` and `Decoder::new`. */
  function NewTable(): HeaderTable {
    HeaderTable(StaticTable(), [], 4096)
  }

  function NewDecoder(maxAllowed: Option<nat>): DecoderState {
    DecoderState(NewTable(), maxAllowed, raw => HuffmanCode.DecodeHpack(raw))
  }

  /** Two fresh peers stay in step over every legal session. */
  lemma FreshPeersStayInStep(maxAllowed: Option<nat>, session: seq<Exchange>)
    requires Legal(session, 4096, maxAllowed)
    ensures InStep(NewTable(), NewDecoder(maxAllowed), session)
  {
    SessionStaysInStep(NewTable(), NewDecoder(maxAllowed), session);
  }

  /** For fresh peers an encoder-only size is safe exactly up to the default of 4096. */
  lemma FreshSizeSafeIff(maxAllowed: Option<nat>, n: nat)
    requires n < 0x1_0000_0000
    ensures AlwaysDecodes(NewTable().Resize(n), NewDecoder(maxAllowed)) <==> n <= 4096
  {
    DefaultSizeSafeIff(NewTable(), NewDecoder(maxAllowed), n);
  }
}
