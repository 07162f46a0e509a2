/** Poll entries, and ledgers of them. */
module PollTypes {
  /** Bits of `events` and `revents`.  Requests may only use the first three;
      the other two are only ever reported. */
  datatype Bits = Bits(rd: bool, wr: bool, pri: bool, err: bool, hup: bool)

  const NO_BITS := Bits(false, false, false, false, false)

  datatype Kind = Rd | Wr | Ex

  datatype PollFd = PollFd(fd: int, events: Bits, revents: Bits)

  predicate Has(b: Bits, k: Kind) {
    match k
    case Rd => b.rd
    case Wr => b.wr
    case Ex => b.pri
  }

  /** The checks that a poll entry must pass to be waited for. */
  predicate Acceptable(pd: PollFd) {
    pd.fd >= 0 && pd.events != NO_BITS && !pd.events.err && !pd.events.hup
  }

  predicate AllAcceptable(pds: seq<PollFd>) {
    forall i :: 0 <= i < |pds| ==> Acceptable(pds[i])
  }

  /** How many entries of the ledger ask for events of kind k on descriptor f. */
  function Asks(l: seq<PollFd>, f: int, k: Kind): nat {
    if l == [] then 0
    else Asks(l[1..], f, k) + (if l[0].fd == f && Has(l[0].events, k) then 1 else 0)
  }

  /** All that the ledger asks for on descriptor f. */
  function Wanted(l: seq<PollFd>, f: int): Bits {
    Bits(Asks(l, f, Rd) > 0, Asks(l, f, Wr) > 0, Asks(l, f, Ex) > 0, false, false)
  }

  lemma {:induction false} AsksConcat(a: seq<PollFd>, b: seq<PollFd>, f: int, k: Kind)
    ensures Asks(a + b, f, k) == Asks(a, f, k) + Asks(b, f, k)
  {
    if a == [] {
      assert a + b == b;
    } else {
      assert (a + b)[1..] == a[1..] + b;
      AsksConcat(a[1..], b, f, k);
    }
  }

  lemma AsksOne(pd: PollFd, f: int, k: Kind)
    ensures Asks([pd], f, k) == if pd.fd == f && Has(pd.events, k) then 1 else 0
  {
    assert [pd][1..] == [];
  }

  /** `l'` is `l` with one more entry somewhere. */
  ghost predicate OneMore(l: seq<PollFd>, pd: PollFd, l': seq<PollFd>) {
    && (forall f, k :: Asks(l', f, k) == Asks(l, f, k) + if pd.fd == f && Has(pd.events, k) then 1 else 0)
    && (forall p :: p in l' ==> p in l || p == pd)
    && (forall p :: p in l ==> p in l')
    && pd in l'
  }

  lemma OneMoreAt(a: seq<PollFd>, pd: PollFd, b: seq<PollFd>)
    ensures OneMore(a + b, pd, a + [pd] + b)
  {
    forall f, k
      ensures Asks(a + [pd] + b, f, k) == Asks(a + b, f, k) + if pd.fd == f && Has(pd.events, k) then 1 else 0
    {
      AsksOne(pd, f, k);
      AsksConcat(a, b, f, k);
      AsksConcat(a, [pd], f, k);
      AsksConcat(a + [pd], b, f, k);
    }
  }
}
