/** One entry of a rule's backend list: a bare address, or an address with a drain flag. */
module BackendConfigs {

  datatype BackendConfig = Simple(name: string) | Detailed(name: string, draining: bool)
  {
    function Addr(): string {
      name
    }

    function Drain(): bool {
      match this
      case Simple(_) => false
      case Detailed(_, d) => d
    }
  }

  ghost predicate UniqueAddrs(configs: seq<BackendConfig>) {
    forall i, j :: 0 <= i < j < |configs| ==> configs[i].Addr() != configs[j].Addr()
  }

  /** Of the first `n` entries, entry `i` is the last with its address. */
  ghost predicate LastWith(configs: seq<BackendConfig>, n: nat, i: nat)
    requires i < n <= |configs|
  {
    forall j :: i < j < n ==> configs[j].Addr() != configs[i].Addr()
  }
}
