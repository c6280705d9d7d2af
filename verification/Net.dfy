/** Addresses, as far as the load balancer looks at them. */
module Net {

  newtype byte = x: int | 0 <= x < 256

  type Ipv4 = o: seq<byte> | |o| == 4 witness [0, 0, 0, 0]
  type Ipv6 = o: seq<byte> | |o| == 16 witness [0, 0, 0, 0, 0, 0, 0, 0, 0, 0, 0, 0, 0, 0, 0, 0]
  type Port = p: nat | p < 0x1_0000

  datatype IpAddr = V4(v4: Ipv4) | V6(v6: Ipv6)

  datatype SocketAddr = SocketAddr(ip: IpAddr, port: Port)
}
