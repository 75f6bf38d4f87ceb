/**
 * The constant catalog of header names the user can pick from: a "safe"
 * tier that rarely breaks sites and an "advanced" tier, listed in the order
 * the options form shows them. The advanced tier is written as the
 * concatenation of its thematic groups; the value is the same list.
 */
module Headers {
  import opened Text

  /** Commonly honoured headers, unlikely to break sites. */
  const SafeHeaders: seq<string> :=
    ["X-Forwarded-For", "X-Real-IP", "X-Originating-IP", "CF-Connecting-IP", "True-Client-IP", "X-Client-IP"]

  const ForwardedVariants: seq<string> :=
    ["X-Forwarded-For-Original", "X-Forwarded", "X-Forwarded-By", "X-Forwarded-Server", "X-Forwarded-Host", "X-Forward-For"]
  const OriginalIpHeaders: seq<string> :=
    ["X-Original-IP", "X-Original-Remote-Addr", "X-Original-Host", "X-Original-Url", "X-Originally-Forwarded-For"]
  const RemoteHeaders: seq<string> := ["X-Remote-IP", "X-Remote-Addr"]
  const ClusterHeaders: seq<string> := ["X-Cluster-Client-IP"]
  const ProxyUserHeaders: seq<string> := ["X-ProxyMesh-IP", "X-ProxyUser-IP"]
  const FromHeaders: seq<string> := ["X-From-IP", "X-From"]
  const TrueClientHeaders: seq<string> := ["X-True-Client-IP"]
  const OtherXHeaders: seq<string> :=
    ["X-Backend-Host", "X-BlueCoat-Via", "X-Cache-Info", "X-Gateway-Host", "X-Host", "X-Ip"]
  const StandardForwardedHeaders: seq<string> := ["Forwarded", "Forwarded-For"]
  const ClientIpHeaders: seq<string> := ["Client-IP"]
  const CdnHeaders: seq<string> := ["Ali-CDN-Real-IP", "Cdn-Src-IP", "Cdn-Real-IP"]
  const ProxyHeaders: seq<string> := ["WL-Proxy-Client-IP", "Proxy-Client-IP"]
  const SourceViaHeaders: seq<string> := ["Source-IP", "Via"]
  const ZForwardedHeaders: seq<string> := ["Z-Forwarded-For"]
  const HttpPrefixedHeaders: seq<string> :=
    ["HTTP-CLIENT-IP", "HTTP-FORWARDED-FOR-IP", "HTTP-PC-REMOTE-ADDR", "HTTP-PROXY-CONNECTION",
     "HTTP-VIA", "HTTP-X-FORWARDED-FOR-IP", "HTTP-X-IMFORWARDS", "HTTP-XROXY-CONNECTION"]
  const CgiStyleHeaders: seq<string> :=
    ["COMING_FROM", "CONNECT_VIA_IP", "FORWARD_FOR", "PC_REMOTE_ADDR", "PRAGMA",
     "PROXY_AUTHORIZATION", "PROXY_CONNECTION", "PROXY", "REMOTE_ADDR"]
  const OtherVariants: seq<string> := ["XONNECTION", "XPROXY", "XROXY_CONNECTION", "ZCACHE_CONTROL"]

  /** The advanced tier: headers that may break some sites. */
  const AdvancedHeaders: seq<string> :=
    ForwardedVariants + OriginalIpHeaders + RemoteHeaders + ClusterHeaders + ProxyUserHeaders
    + FromHeaders + TrueClientHeaders + OtherXHeaders + StandardForwardedHeaders + ClientIpHeaders
    + CdnHeaders + ProxyHeaders + SourceViaHeaders + ZForwardedHeaders + HttpPrefixedHeaders
    + CgiStyleHeaders + OtherVariants

  /** The whole catalog: the safe tier followed by the advanced tier. */
  const AllHeaders: seq<string> := SafeHeaders + AdvancedHeaders

  lemma SafeHeadersShape()
    ensures |SafeHeaders| == 6 && SafeHeaders[0] == "X-Forwarded-For"
  {
  }

  lemma CatalogLayout()
    ensures |AdvancedHeaders| == 57 && |AllHeaders| == 63
    ensures AllHeaders[..6] == SafeHeaders && AllHeaders[6..] == AdvancedHeaders
  {
  }

  /**
   * No name is in both tiers, so "deselect all" on one section of the form
   * never removes a header of the other section.
   */
  lemma TiersDisjoint()
    ensures forall h :: h in SafeHeaders ==> h !in AdvancedHeaders
  {
    CatalogPositioned();
    assert forall i :: 0 <= i < |SafeHeaders| ==> CatalogPosition(SafeHeaders[i]) < |SafeHeaders|
      by { SafeHeadersPositioned(); }
    assert forall j :: 0 <= j < |AdvancedHeaders| ==> CatalogPosition(AdvancedHeaders[j]) >= |SafeHeaders|
      by { assert forall j :: 0 <= j < |AdvancedHeaders| ==> AdvancedHeaders[j] == AllHeaders[|SafeHeaders| + j]; }
  }

  /** The safe tier names six different headers, even ignoring case. */
  lemma SafeHeadersDistinctIgnoringCase()
    ensures forall i, j :: 0 <= i < j < |SafeHeaders| ==> !SameIgnoringCase(SafeHeaders[i], SafeHeaders[j])
  {
    assert ToLower(SafeHeaders[2])[0] == 'x' && ToLower(SafeHeaders[3])[0] == 'c';
  }

  /**
   * Where a name sits in the catalog, read off its length and one or two
   * letters compared after lower-casing; -1 for a name the catalog lacks
   * at that length and letter. A name and its lower-cased form get the
   * same answer, so two entries equal after lower-casing get the same
   * answer, and the catalog is distinct ignoring case exactly when every
   * entry gets its own position.
   */
  function CatalogPosition(name: string): int {
    match |name|
    case 3 => 40
    case 4 => 30
    case 5 => 57
    case 6 =>
      if LowerChar(name[2]) == 'f' then 23
      else if LowerChar(name[2]) == 'h' then 29
      else if LowerChar(name[2]) == 'a' then 54
      else if LowerChar(name[2]) == 'r' then 60
      else -1
    case 8 => 46
    case 9 =>
      if LowerChar(name[5]) == 'l' then 1
      else if LowerChar(name[5]) == 'm' then 22
      else if LowerChar(name[5]) == 'r' then 31
      else if LowerChar(name[5]) == 't' then 33
      else if LowerChar(name[5]) == 'e' then 39
      else -1
    case 10 =>
      if LowerChar(name[0]) == 'c' then 35
      else if LowerChar(name[0]) == 'x' then 59
      else -1
    case 11 =>
      if LowerChar(name[7]) == 't' then 5
      else if LowerChar(name[7]) == 'r' then 7
      else if LowerChar(name[7]) == 'e' then 17
      else if LowerChar(name[7]) == 'l' then 36
      else if LowerChar(name[7]) == 'f' then 50
      else if LowerChar(name[7]) == '_' then 52
      else if LowerChar(name[7]) == 'a' then 58
      else -1
    case 12 => 27
    case 13 =>
      if LowerChar(name[3]) == 'o' then 11
      else if LowerChar(name[3]) == 'r' then 12
      else if LowerChar(name[3]) == 'e' then 18
      else if LowerChar(name[3]) == 'w' then 32
      else -1
    case 14 =>
      if LowerChar(name[0]) == 't' then 4
      else if LowerChar(name[0]) == 'x' then
        if LowerChar(name[2]) == 'f' then 8
        else if LowerChar(name[2]) == 'o' then 15
        else if LowerChar(name[2]) == 'p' then
          if LowerChar(name[7]) == 'm' then 20
          else if LowerChar(name[7]) == 'u' then 21
          else -1
        else if LowerChar(name[2]) == 'b' then
          if LowerChar(name[3]) == 'a' then 25
          else if LowerChar(name[3]) == 'l' then 26
          else -1
        else if LowerChar(name[2]) == 'g' then 28
        else -1
      else if LowerChar(name[0]) == 'h' then 42
      else if LowerChar(name[0]) == 'c' then 51
      else if LowerChar(name[0]) == 'p' then 53
      else if LowerChar(name[0]) == 'z' then 62
      else -1
    case 15 =>
      if LowerChar(name[0]) == 'x' then
        if LowerChar(name[2]) == 'f' then 0
        else if LowerChar(name[2]) == 'o' then 14
        else -1
      else if LowerChar(name[0]) == 'a' then 34
      else if LowerChar(name[0]) == 'p' then 38
      else if LowerChar(name[0]) == 'z' then 41
      else -1
    case 16 =>
      if LowerChar(name[0]) == 'x' then
        if LowerChar(name[4]) == 'i' then 2
        else if LowerChar(name[4]) == 'r' then 10
        else if LowerChar(name[4]) == 'u' then 24
        else if LowerChar(name[4]) == 'y' then 61
        else -1
      else if LowerChar(name[0]) == 'c' then 3
      else if LowerChar(name[0]) == 'p' then 56
      else -1
    case 17 => 48
    case 18 =>
      if LowerChar(name[0]) == 'x' then 9
      else if LowerChar(name[0]) == 'w' then 37
      else -1
    case 19 =>
      if LowerChar(name[0]) == 'x' then 19
      else if LowerChar(name[0]) == 'h' then 44
      else if LowerChar(name[0]) == 'p' then 55
      else -1
    case 21 =>
      if LowerChar(name[5]) == 'f' then 43
      else if LowerChar(name[5]) == 'p' then 45
      else if LowerChar(name[5]) == 'x' then 49
      else -1
    case 22 => 13
    case 23 => 47
    case 24 => 6
    case 26 => 16
    case _ => -1
  }

  /** Every entry of `names` is found at `offset` plus its index. */
  predicate Positioned(names: seq<string>, offset: int) {
    forall k :: 0 <= k < |names| ==> CatalogPosition(names[k]) == offset + k
  }

  lemma SafeHeadersPositioned()
    ensures Positioned(SafeHeaders, 0)
  {
    assert CatalogPosition(SafeHeaders[0]) == 0;
    assert CatalogPosition(SafeHeaders[1]) == 1;
    assert CatalogPosition(SafeHeaders[2]) == 2;
    assert CatalogPosition(SafeHeaders[3]) == 3;
    assert CatalogPosition(SafeHeaders[4]) == 4;
    assert CatalogPosition(SafeHeaders[5]) == 5;
  }

  lemma ForwardedVariantsPositioned()
    ensures Positioned(ForwardedVariants, 6)
  {
    assert CatalogPosition(ForwardedVariants[0]) == 6;
    assert CatalogPosition(ForwardedVariants[1]) == 7;
    assert CatalogPosition(ForwardedVariants[2]) == 8;
    assert CatalogPosition(ForwardedVariants[3]) == 9;
    assert CatalogPosition(ForwardedVariants[4]) == 10;
    assert CatalogPosition(ForwardedVariants[5]) == 11;
  }

  lemma OriginalIpHeadersPositioned()
    ensures Positioned(OriginalIpHeaders, 12)
  {
    assert CatalogPosition(OriginalIpHeaders[0]) == 12;
    assert CatalogPosition(OriginalIpHeaders[1]) == 13;
    assert CatalogPosition(OriginalIpHeaders[2]) == 14;
    assert CatalogPosition(OriginalIpHeaders[3]) == 15;
    assert CatalogPosition(OriginalIpHeaders[4]) == 16;
  }

  lemma RemoteHeadersPositioned()
    ensures Positioned(RemoteHeaders, 17)
  {
    assert CatalogPosition(RemoteHeaders[0]) == 17;
    assert CatalogPosition(RemoteHeaders[1]) == 18;
  }

  lemma ClusterHeadersPositioned()
    ensures Positioned(ClusterHeaders, 19)
  {
    assert CatalogPosition(ClusterHeaders[0]) == 19;
  }

  lemma ProxyUserHeadersPositioned()
    ensures Positioned(ProxyUserHeaders, 20)
  {
    assert CatalogPosition(ProxyUserHeaders[0]) == 20;
    assert CatalogPosition(ProxyUserHeaders[1]) == 21;
  }

  lemma FromHeadersPositioned()
    ensures Positioned(FromHeaders, 22)
  {
    assert CatalogPosition(FromHeaders[0]) == 22;
    assert CatalogPosition(FromHeaders[1]) == 23;
  }

  lemma TrueClientHeadersPositioned()
    ensures Positioned(TrueClientHeaders, 24)
  {
    assert CatalogPosition(TrueClientHeaders[0]) == 24;
  }

  lemma OtherXHeadersPositioned()
    ensures Positioned(OtherXHeaders, 25)
  {
    assert CatalogPosition(OtherXHeaders[0]) == 25;
    assert CatalogPosition(OtherXHeaders[1]) == 26;
    assert CatalogPosition(OtherXHeaders[2]) == 27;
    assert CatalogPosition(OtherXHeaders[3]) == 28;
    assert CatalogPosition(OtherXHeaders[4]) == 29;
    assert CatalogPosition(OtherXHeaders[5]) == 30;
  }

  lemma StandardForwardedHeadersPositioned()
    ensures Positioned(StandardForwardedHeaders, 31)
  {
    assert CatalogPosition(StandardForwardedHeaders[0]) == 31;
    assert CatalogPosition(StandardForwardedHeaders[1]) == 32;
  }

  lemma ClientIpHeadersPositioned()
    ensures Positioned(ClientIpHeaders, 33)
  {
    assert CatalogPosition(ClientIpHeaders[0]) == 33;
  }

  lemma CdnHeadersPositioned()
    ensures Positioned(CdnHeaders, 34)
  {
    assert CatalogPosition(CdnHeaders[0]) == 34;
    assert CatalogPosition(CdnHeaders[1]) == 35;
    assert CatalogPosition(CdnHeaders[2]) == 36;
  }

  lemma ProxyHeadersPositioned()
    ensures Positioned(ProxyHeaders, 37)
  {
    assert CatalogPosition(ProxyHeaders[0]) == 37;
    assert CatalogPosition(ProxyHeaders[1]) == 38;
  }

  lemma SourceViaHeadersPositioned()
    ensures Positioned(SourceViaHeaders, 39)
  {
    assert CatalogPosition(SourceViaHeaders[0]) == 39;
    assert CatalogPosition(SourceViaHeaders[1]) == 40;
  }

  lemma ZForwardedHeadersPositioned()
    ensures Positioned(ZForwardedHeaders, 41)
  {
    assert CatalogPosition(ZForwardedHeaders[0]) == 41;
  }

  lemma HttpPrefixedHeadersPositioned()
    ensures Positioned(HttpPrefixedHeaders, 42)
  {
    assert CatalogPosition(HttpPrefixedHeaders[0]) == 42;
    assert CatalogPosition(HttpPrefixedHeaders[1]) == 43;
    assert CatalogPosition(HttpPrefixedHeaders[2]) == 44;
    assert CatalogPosition(HttpPrefixedHeaders[3]) == 45;
    assert CatalogPosition(HttpPrefixedHeaders[4]) == 46;
    assert CatalogPosition(HttpPrefixedHeaders[5]) == 47;
    assert CatalogPosition(HttpPrefixedHeaders[6]) == 48;
    assert CatalogPosition(HttpPrefixedHeaders[7]) == 49;
  }

  lemma CgiStyleHeadersPositioned()
    ensures Positioned(CgiStyleHeaders, 50)
  {
    assert CatalogPosition(CgiStyleHeaders[0]) == 50;
    assert CatalogPosition(CgiStyleHeaders[1]) == 51;
    assert CatalogPosition(CgiStyleHeaders[2]) == 52;
    assert CatalogPosition(CgiStyleHeaders[3]) == 53;
    assert CatalogPosition(CgiStyleHeaders[4]) == 54;
    assert CatalogPosition(CgiStyleHeaders[5]) == 55;
    assert CatalogPosition(CgiStyleHeaders[6]) == 56;
    assert CatalogPosition(CgiStyleHeaders[7]) == 57;
    assert CatalogPosition(CgiStyleHeaders[8]) == 58;
  }

  lemma OtherVariantsPositioned()
    ensures Positioned(OtherVariants, 59)
  {
    assert CatalogPosition(OtherVariants[0]) == 59;
    assert CatalogPosition(OtherVariants[1]) == 60;
    assert CatalogPosition(OtherVariants[2]) == 61;
    assert CatalogPosition(OtherVariants[3]) == 62;
  }

  lemma PositionedConcat(a: seq<string>, b: seq<string>, offset: int)
    requires Positioned(a, offset) && Positioned(b, offset + |a|)
    ensures Positioned(a + b, offset)
  {
  }

  /** Every catalog entry is found at its own index. */
  lemma CatalogPositioned()
    ensures Positioned(AllHeaders, 0)
  {
    SafeHeadersPositioned();
    ForwardedVariantsPositioned();
    OriginalIpHeadersPositioned();
    RemoteHeadersPositioned();
    ClusterHeadersPositioned();
    ProxyUserHeadersPositioned();
    FromHeadersPositioned();
    TrueClientHeadersPositioned();
    OtherXHeadersPositioned();
    StandardForwardedHeadersPositioned();
    ClientIpHeadersPositioned();
    CdnHeadersPositioned();
    ProxyHeadersPositioned();
    SourceViaHeadersPositioned();
    ZForwardedHeadersPositioned();
    HttpPrefixedHeadersPositioned();
    CgiStyleHeadersPositioned();
    OtherVariantsPositioned();
    var prefix := ForwardedVariants;
    PositionedConcat(prefix, OriginalIpHeaders, |SafeHeaders|);
    prefix := prefix + OriginalIpHeaders;
    PositionedConcat(prefix, RemoteHeaders, |SafeHeaders|);
    prefix := prefix + RemoteHeaders;
    PositionedConcat(prefix, ClusterHeaders, |SafeHeaders|);
    prefix := prefix + ClusterHeaders;
    PositionedConcat(prefix, ProxyUserHeaders, |SafeHeaders|);
    prefix := prefix + ProxyUserHeaders;
    PositionedConcat(prefix, FromHeaders, |SafeHeaders|);
    prefix := prefix + FromHeaders;
    PositionedConcat(prefix, TrueClientHeaders, |SafeHeaders|);
    prefix := prefix + TrueClientHeaders;
    PositionedConcat(prefix, OtherXHeaders, |SafeHeaders|);
    prefix := prefix + OtherXHeaders;
    PositionedConcat(prefix, StandardForwardedHeaders, |SafeHeaders|);
    prefix := prefix + StandardForwardedHeaders;
    PositionedConcat(prefix, ClientIpHeaders, |SafeHeaders|);
    prefix := prefix + ClientIpHeaders;
    PositionedConcat(prefix, CdnHeaders, |SafeHeaders|);
    prefix := prefix + CdnHeaders;
    PositionedConcat(prefix, ProxyHeaders, |SafeHeaders|);
    prefix := prefix + ProxyHeaders;
    PositionedConcat(prefix, SourceViaHeaders, |SafeHeaders|);
    prefix := prefix + SourceViaHeaders;
    PositionedConcat(prefix, ZForwardedHeaders, |SafeHeaders|);
    prefix := prefix + ZForwardedHeaders;
    PositionedConcat(prefix, HttpPrefixedHeaders, |SafeHeaders|);
    prefix := prefix + HttpPrefixedHeaders;
    PositionedConcat(prefix, CgiStyleHeaders, |SafeHeaders|);
    prefix := prefix + CgiStyleHeaders;
    PositionedConcat(prefix, OtherVariants, |SafeHeaders|);
    prefix := prefix + OtherVariants;
    assert prefix == AdvancedHeaders;
    PositionedConcat(SafeHeaders, AdvancedHeaders, 0);
  }

  lemma {:induction false} PositionIgnoresCase(name: string)
    ensures CatalogPosition(ToLower(name)) == CatalogPosition(name)
  {
  }

  /**
   * No two of the 63 catalog entries name the same header: they stay
   * pairwise distinct after lower-casing.
   */
  lemma CatalogDistinctIgnoringCase()
    ensures forall i, j :: 0 <= i < j < |AllHeaders| ==> !SameIgnoringCase(AllHeaders[i], AllHeaders[j])
  {
    CatalogPositioned();
    forall i, j | 0 <= i < j < |AllHeaders|
      ensures !SameIgnoringCase(AllHeaders[i], AllHeaders[j])
    {
      PositionIgnoresCase(AllHeaders[i]);
      PositionIgnoresCase(AllHeaders[j]);
    }
  }
}
