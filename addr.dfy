/**
 * Decoding of NNG socket addresses (`nng_sockaddr`) into `SocketAddr`:
 * dispatch on the family tag, field-for-field copies, and C string buffers
 * cut at their first NUL byte.
 */
module Addr {
  import opened CTypes

  /** The family tags of `nng_sockaddr`, as NNG's header numbers them. */
  const NNG_AF_UNSPEC: U16 := 0
  const NNG_AF_INPROC: U16 := 1
  const NNG_AF_IPC: U16 := 2
  const NNG_AF_INET: U16 := 3
  const NNG_AF_INET6: U16 := 4
  const NNG_AF_ZT: U16 := 5

  /** `NNG_MAXADDRLEN`, the size of the name and path buffers. */
  const NNG_MAXADDRLEN: nat := 128

  /**
   * `iter().position(|&b| b == 0).unwrap_or(len)`: the index of the first
   * NUL byte, or the length when there is none.
   */
  function NulPosition(buf: seq<Byte>): (k: nat)
    ensures k <= |buf|
    ensures forall i :: 0 <= i < k ==> buf[i] != 0
    ensures k < |buf| ==> buf[k] == 0
  {
    if buf == [] then 0
    else if buf[0] == 0 then 0
    else 1 + NulPosition(buf[1..])
  }

  /**
   * `buf_to_string` for `u8` buffers: the bytes before the first NUL, or
   * the whole buffer. The lossy UTF-8 decoding of those bytes is not modelled.
   */
  function BufToString(buf: seq<Byte>): (s: seq<Byte>)
    ensures s <= buf
    ensures 0 !in s
    ensures |s| < |buf| ==> buf[|s|] == 0
  {
    buf[..NulPosition(buf)]
  }

  /** The byte an `i8` is read as by `slice::from_raw_parts` at type `u8`. */
  function AsByte(b: I8): (u: Byte)
    ensures (u - b) % 0x100 == 0
    ensures u == 0 <==> b == 0
  {
    if b < 0 then b + 0x100 else b
  }

  /**
   * `buf_to_string` for `i8` buffers: the same cut, made on the buffer
   * reinterpreted as bytes. `&buf[0]` makes an empty buffer panic.
   */
  function BufToStringSigned(buf: seq<I8>): (s: seq<Byte>)
    requires |buf| > 0
    ensures |s| <= |buf| && 0 !in s
    ensures forall i :: 0 <= i < |s| ==> s[i] == AsByte(buf[i])
    ensures |s| < |buf| ==> buf[|s|] == 0
  {
    BufToString(seq(|buf|, i requires 0 <= i < |buf| => AsByte(buf[i])))
  }

  /** A buffer that starts with NUL decodes to the empty string. */
  lemma LeadingNulIsEmpty(buf: seq<Byte>)
    requires |buf| > 0 && buf[0] == 0
    ensures BufToString(buf) == []
  {
  }

  /** Whatever follows a NUL byte never affects the result. */
  lemma {:induction false} BytesAfterNulIgnored(buf: seq<Byte>, tail: seq<Byte>)
    requires 0 in buf
    ensures BufToString(buf + tail) == BufToString(buf)
  {
    if buf[0] != 0 {
      assert (buf + tail)[1..] == buf[1..] + tail;
      BytesAfterNulIgnored(buf[1..], tail);
      assert NulPosition(buf + tail) == NulPosition(buf);
    }
  }

  /**
   * A C string round trip: a string with no NUL, stored in a buffer and
   * followed by nothing or by a NUL and any padding, decodes back to itself.
   */
  lemma {:induction false} CStringRoundTrip(s: seq<Byte>, pad: seq<Byte>)
    requires 0 !in s
    requires pad == [] || pad[0] == 0
    ensures BufToString(s + pad) == s
  {
    if s == [] {
      assert s + pad == pad;
    } else {
      assert (s + pad)[1..] == s[1..] + pad;
      CStringRoundTrip(s[1..], pad);
      assert NulPosition(s + pad) == |s|;
    }
  }

  /** `nng_sockaddr_inproc` and `nng_sockaddr_ipc`: a tag and a name or path buffer. */
  datatype SockaddrPath = SockaddrPath(sa_family: U16, sa_path: seq<Byte>)

  /** `nng_sockaddr_in`. */
  datatype SockaddrIn = SockaddrIn(sa_family: U16, sa_port: U16, sa_addr: U32)

  type Ipv6Octets = s: seq<Byte> | |s| == 16 witness seq(16, _ => 0)

  /** `nng_sockaddr_in6`. */
  datatype SockaddrIn6 = SockaddrIn6(sa_family: U16, sa_port: U16, sa_addr: Ipv6Octets)

  /** `nng_sockaddr_zt`. */
  datatype SockaddrZt = SockaddrZt(sa_family: U16, sa_nwid: U64, sa_nodeid: U64, sa_port: U32)

  /**
   * `nng_sockaddr`, a C union: the family tag together with each reading of
   * the union that the decoder may select.
   */
  datatype NngSockaddr = NngSockaddr(
    s_family: U16,
    s_inproc: SockaddrPath,
    s_ipc: SockaddrPath,
    s_in: SockaddrIn,
    s_in6: SockaddrIn6,
    s_zt: SockaddrZt)

  /** `SocketAddrV4`: the address as the `u32` it is built from, and the port. */
  datatype SocketAddrV4 = SocketAddrV4(ip: U32, port: U16)

  /** `SocketAddrV6`: octets, port, flow information and scope id. */
  datatype SocketAddrV6 = SocketAddrV6(ip: Ipv6Octets, port: U16, flowinfo: U32, scope_id: U32)

  datatype SocketAddrZt = SocketAddrZt(family: U16, nwid: U64, nodeid: U64, port: U32)

  /** `SocketAddr`; names and paths are the decoded bytes. */
  datatype SocketAddr =
    | InProc(name: seq<Byte>)
    | Ipc(path: seq<Byte>)
    | Inet(v4: SocketAddrV4)
    | Inet6(v6: SocketAddrV6)
    | ZeroTier(zt: SocketAddrZt)
    | Unspecified

  /** `SocketAddrZt::new`: the four fields, copied unchanged. */
  function ZtFromNng(addr: SockaddrZt): (z: SocketAddrZt)
    ensures z.family == addr.sa_family && z.nwid == addr.sa_nwid
    ensures z.nodeid == addr.sa_nodeid && z.port == addr.sa_port
  {
    SocketAddrZt(addr.sa_family, addr.sa_nwid, addr.sa_nodeid, addr.sa_port)
  }

  /**
   * `From<nng_sockaddr> for SocketAddr`: the tag selects the variant and the
   * reading of the union it is built from; every other tag, `NNG_AF_UNSPEC`
   * included, gives `Unspecified`.
   */
  function FromNng(addr: NngSockaddr): (a: SocketAddr)
    ensures a.InProc? <==> addr.s_family == NNG_AF_INPROC
    ensures a.Ipc? <==> addr.s_family == NNG_AF_IPC
    ensures a.Inet? <==> addr.s_family == NNG_AF_INET
    ensures a.Inet6? <==> addr.s_family == NNG_AF_INET6
    ensures a.ZeroTier? <==> addr.s_family == NNG_AF_ZT
    ensures a.InProc? ==> a.name == BufToString(addr.s_inproc.sa_path)
    ensures a.Ipc? ==> a.path == BufToString(addr.s_ipc.sa_path)
    ensures a.Inet? ==> a.v4.ip == addr.s_in.sa_addr && a.v4.port == addr.s_in.sa_port
    ensures a.Inet6? ==> a.v6.ip == addr.s_in6.sa_addr && a.v6.port == addr.s_in6.sa_port
    ensures a.Inet6? ==> a.v6.flowinfo == 0 && a.v6.scope_id == 0
    ensures a.ZeroTier? ==> a.zt == ZtFromNng(addr.s_zt)
  {
    if addr.s_family == NNG_AF_INPROC then InProc(BufToString(addr.s_inproc.sa_path))
    else if addr.s_family == NNG_AF_IPC then Ipc(BufToString(addr.s_ipc.sa_path))
    else if addr.s_family == NNG_AF_INET then Inet(SocketAddrV4(addr.s_in.sa_addr, addr.s_in.sa_port))
    else if addr.s_family == NNG_AF_INET6 then Inet6(SocketAddrV6(addr.s_in6.sa_addr, addr.s_in6.sa_port, 0, 0))
    else if addr.s_family == NNG_AF_ZT then ZeroTier(ZtFromNng(addr.s_zt))
    else Unspecified
  }

  /** A name that fits an `NNG_MAXADDRLEN` buffer as a C string. */
  predicate FitsBuffer(s: seq<Byte>)
  {
    |s| <= NNG_MAXADDRLEN && 0 !in s
  }

  /** The addresses an `nng_sockaddr` can describe without loss. */
  predicate Representable(a: SocketAddr)
  {
    match a
    case InProc(name) => FitsBuffer(name)
    case Ipc(path) => FitsBuffer(path)
    case Inet6(v6) => v6.flowinfo == 0 && v6.scope_id == 0
    case _ => true
  }

  /** `s` as an `NNG_MAXADDRLEN` buffer, padded with NUL bytes. */
  function CBuffer(s: seq<Byte>): (buf: seq<Byte>)
    requires |s| <= NNG_MAXADDRLEN
    ensures |buf| == NNG_MAXADDRLEN && buf[..|s|] == s
  {
    s + seq(NNG_MAXADDRLEN - |s|, _ => 0)
  }

  /** The `nng_sockaddr` an address is stored as; the readings the tag does not select are zero. */
  function ToNng(a: SocketAddr): (addr: NngSockaddr)
    requires Representable(a)
  {
    var path := SockaddrPath(0, CBuffer([]));
    var in4 := SockaddrIn(0, 0, 0);
    var in6 := SockaddrIn6(0, 0, seq(16, _ => 0));
    var zt := SockaddrZt(0, 0, 0, 0);
    match a
    case InProc(name) => NngSockaddr(NNG_AF_INPROC, SockaddrPath(NNG_AF_INPROC, CBuffer(name)), path, in4, in6, zt)
    case Ipc(p) => NngSockaddr(NNG_AF_IPC, path, SockaddrPath(NNG_AF_IPC, CBuffer(p)), in4, in6, zt)
    case Inet(v4) => NngSockaddr(NNG_AF_INET, path, path, SockaddrIn(NNG_AF_INET, v4.port, v4.ip), in6, zt)
    case Inet6(v6) => NngSockaddr(NNG_AF_INET6, path, path, in4, SockaddrIn6(NNG_AF_INET6, v6.port, v6.ip), zt)
    case ZeroTier(z) => NngSockaddr(NNG_AF_ZT, path, path, in4, in6, SockaddrZt(z.family, z.nwid, z.nodeid, z.port))
    case Unspecified => NngSockaddr(NNG_AF_UNSPEC, path, path, in4, in6, zt)
  }

  /** Decoding inverts storing, for every address an `nng_sockaddr` can hold. */
  lemma DecodeInvertsStore(a: SocketAddr)
    requires Representable(a)
    ensures FromNng(ToNng(a)) == a
  {
    match a
    case InProc(name) => CStringRoundTrip(name, seq(NNG_MAXADDRLEN - |name|, _ => 0));
    case Ipc(p) => CStringRoundTrip(p, seq(NNG_MAXADDRLEN - |p|, _ => 0));
    case _ =>
  }
}
