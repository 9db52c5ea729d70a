/**
 The only contract of the layer that moves value. It holds a seller's tokens while an exit
 lives, and clears a fill by moving the cash leg and the asset leg in one call.
 */
module SettlementRouter {
  import opened Ledger
  import opened LpVault

  /** No setting takes the protocol fee above this. */
  const MAX_PROTOCOL_FEE_BPS: nat := 500

  datatype EscrowRecord = EscrowRecord(seller: Address, asset: Address, amount: int)

  function Fee(gross: int, feeBps: nat): int {
    DivTrunc(gross * feeBps, BPS_DENOMINATOR)
  }

  datatype RouterState = RouterState(
    treasury: User,
    feeBps: nat,
    escrows: map<nat, EscrowRecord>)
  {
    function SetProtocolFeeBps(bps: nat): Result<RouterState> {
      if bps > MAX_PROTOCOL_FEE_BPS then Err(Router(RouterError.InvalidBps))
      else Ok(this.(feeBps := bps))
    }

    function Escrow(l: LedgerState, exitId: nat, seller: Address, asset: Address, amount: int)
      : Result<(RouterState, LedgerState)>
    {
      if amount <= 0 then Err(Router(RouterError.InvalidAmount))
      else if exitId in escrows then Err(Router(AlreadyEscrowed))
      else
        var held :- l.Transfer(asset, seller, RouterContract, amount);
        Ok((this.(escrows := escrows[exitId := EscrowRecord(seller, asset, amount)]),
            held.Publish(Escrowed(asset, exitId, seller, amount))))
    }

    /** Two payouts out of the node's commitment: the seller's net, then any fee. */
    function CashLeg(v: VaultState, l: LedgerState, held: EscrowRecord, node: Address, net: int, fee: int)
      : Result<(VaultState, LedgerState)>
    {
      var (v1, l1) :- v.PayOut(l, node, held.asset, held.seller, net);
      if fee > 0 then v1.PayOut(l1, node, held.asset, treasury, fee) else Ok((v1, l1))
    }

    /** The tokens leave for the node, and the escrow shrinks by them or disappears. */
    function AssetLeg(l: LedgerState, exitId: nat, held: EscrowRecord, node: Address,
                      tokenAmount: int, gross: int, fee: int): Result<(RouterState, LedgerState)>
    {
      var sent :- l.Transfer(held.asset, RouterContract, node, tokenAmount);
      var remaining := held.amount - tokenAmount;
      Ok((this.(escrows := if remaining == 0 then escrows - {exitId}
                           else escrows[exitId := held.(amount := remaining)]),
          sent.Publish(Settled(held.asset, exitId, held.seller, node, tokenAmount,
                               gross, fee, gross - fee, remaining))))
    }

    function Clear(v: VaultState, l: LedgerState, exitId: nat, held: EscrowRecord, node: Address,
                   tokenAmount: int, gross: int, fee: int): Result<(RouterState, VaultState, LedgerState)>
    {
      var (v', l1) :- CashLeg(v, l, held, node, gross - fee, fee);
      var (r', l2) :- AssetLeg(l1, exitId, held, node, tokenAmount, gross, fee);
      Ok((r', v', l2))
    }

    function Settle(v: VaultState, l: LedgerState, exitId: nat, node: Address, tokenAmount: int, usdcAmount: int)
      : Result<(RouterState, VaultState, LedgerState)>
    {
      if tokenAmount <= 0 || usdcAmount <= 0 then Err(Router(RouterError.InvalidAmount))
      else if exitId !in escrows then Err(Router(NothingEscrowed))
      else if tokenAmount > escrows[exitId].amount then Err(Router(ExceedsEscrow))
      else Clear(v, l, exitId, escrows[exitId], node, tokenAmount, usdcAmount, Fee(usdcAmount, feeBps))
    }

    function Refund(l: LedgerState, exitId: nat): Result<(RouterState, LedgerState)> {
      if exitId !in escrows then Err(Router(NothingEscrowed))
      else
        var held := escrows[exitId];
        var back :- l.Transfer(held.asset, RouterContract, held.seller, held.amount);
        Ok((this.(escrows := escrows - {exitId}),
            back.Publish(Refunded(held.asset, exitId, held.seller, held.amount))))
    }

    /** The seller's share of a gross amount at the fee in force. */
    function QuoteNet(usdcAmount: int): Result<int> {
      if usdcAmount <= 0 then Err(Router(RouterError.InvalidAmount))
      else Ok(usdcAmount - Fee(usdcAmount, feeBps))
    }
  }

  class SettlementRouter {
    const host: Host
    const vault: Vault
    const treasury: User
    var feeBps: nat
    var escrows: map<nat, EscrowRecord>

    constructor (host: Host, vault: Vault, s: RouterState)
      ensures this.host == host && this.vault == vault && State() == s
    {
      this.host, this.vault := host, vault;
      treasury := s.treasury;
      feeBps, escrows := s.feeBps, s.escrows;
    }

    function State(): RouterState
      reads this
    {
      RouterState(treasury, feeBps, escrows)
    }

    method Restore(s: RouterState)
      requires s.treasury == treasury
      modifies this
      ensures State() == s
    {
      feeBps, escrows := s.feeBps, s.escrows;
    }

    method SetProtocolFeeBps(bps: nat) returns (r: Result<()>)
      modifies this
      ensures match old(State()).SetProtocolFeeBps(bps)
              case Ok(s) => r.Ok? && State() == s
              case Err(e) => r == Err(e)
    {
      if bps > MAX_PROTOCOL_FEE_BPS {
        return Err(Error.Router(RouterError.InvalidBps));
      }
      feeBps := bps;
      return Ok(());
    }

    method Escrow(exitId: nat, seller: Address, asset: Address, amount: int) returns (r: Result<()>)
      modifies this, host
      ensures match old(State()).Escrow(old(host.State()), exitId, seller, asset, amount)
              case Ok((s, l)) => r.Ok? && State() == s && host.State() == l
              case Err(e) => r == Err(e)
    {
      if amount <= 0 {
        return Err(Error.Router(RouterError.InvalidAmount));
      }
      if exitId in escrows {
        return Err(Error.Router(AlreadyEscrowed));
      }
      var _ :- host.Transfer(asset, seller, RouterContract, amount);
      escrows := escrows[exitId := EscrowRecord(seller, asset, amount)];
      host.Publish(Escrowed(asset, exitId, seller, amount));
      return Ok(());
    }

    method CashLeg(held: EscrowRecord, node: Address, net: int, fee: int) returns (r: Result<()>)
      requires vault.host == host
      modifies vault, host
      ensures match State().CashLeg(old(vault.State()), old(host.State()), held, node, net, fee)
              case Ok((v, l)) => r.Ok? && vault.State() == v && host.State() == l
              case Err(e) => r == Err(e)
    {
      var _ :- vault.PayOut(node, held.asset, held.seller, net);
      if fee > 0 {
        var _ :- vault.PayOut(node, held.asset, treasury, fee);
      }
      return Ok(());
    }

    method AssetLeg(exitId: nat, held: EscrowRecord, node: Address, tokenAmount: int, gross: int, fee: int)
      returns (r: Result<()>)
      modifies this, host
      ensures match old(State()).AssetLeg(old(host.State()), exitId, held, node, tokenAmount, gross, fee)
              case Ok((s, l)) => r.Ok? && State() == s && host.State() == l
              case Err(e) => r == Err(e)
    {
      var _ :- host.Transfer(held.asset, RouterContract, node, tokenAmount);
      var left := held.(amount := held.amount - tokenAmount);
      var remaining := left.amount;
      if remaining == 0 {
        escrows := escrows - {exitId};
      } else {
        escrows := escrows[exitId := left];
      }
      host.Publish(Settled(held.asset, exitId, held.seller, node, tokenAmount, gross, fee, gross - fee, remaining));
      return Ok(());
    }

    /** Both legs, cash first; a failure of either fails the call. */
    method Clear(exitId: nat, held: EscrowRecord, node: Address, tokenAmount: int, gross: int, fee: int)
      returns (r: Result<()>)
      requires vault.host == host
      modifies this, vault, host
      ensures match old(State()).Clear(old(vault.State()), old(host.State()), exitId, held, node, tokenAmount, gross,
                                       fee)
              case Ok((s, v, l)) => r.Ok? && State() == s && vault.State() == v && host.State() == l
              case Err(e) => r == Err(e)
    {
      var _ :- CashLeg(held, node, gross - fee, fee);
      assert State() == old(State());
      r := AssetLeg(exitId, held, node, tokenAmount, gross, fee);
    }

    method Settle(exitId: nat, node: Address, tokenAmount: int, usdcAmount: int) returns (r: Result<()>)
      requires vault.host == host
      modifies this, vault, host
      ensures match old(State()).Settle(old(vault.State()), old(host.State()), exitId, node, tokenAmount, usdcAmount)
              case Ok((s, v, l)) => r.Ok? && State() == s && vault.State() == v && host.State() == l
              case Err(e) => r == Err(e)
    {
      if tokenAmount <= 0 || usdcAmount <= 0 {
        return Err(Error.Router(RouterError.InvalidAmount));
      }
      if exitId !in escrows {
        return Err(Error.Router(NothingEscrowed));
      }
      var held := escrows[exitId];
      if tokenAmount > held.amount {
        return Err(Error.Router(ExceedsEscrow));
      }
      r := Clear(exitId, held, node, tokenAmount, usdcAmount, Fee(usdcAmount, feeBps));
    }

    method Refund(exitId: nat) returns (r: Result<()>)
      modifies this, host
      ensures match old(State()).Refund(old(host.State()), exitId)
              case Ok((s, l)) => r.Ok? && State() == s && host.State() == l
              case Err(e) => r == Err(e)
    {
      if exitId !in escrows {
        return Err(Error.Router(NothingEscrowed));
      }
      var held := escrows[exitId];
      escrows := escrows - {exitId};
      var _ :- host.Transfer(held.asset, RouterContract, held.seller, held.amount);
      host.Publish(Refunded(held.asset, exitId, held.seller, held.amount));
      return Ok(());
    }
  }
}
