/**
 * The transactions the script sends (scripts/ensRegister.ts): the commit
 * transaction of lines 57-61 and the register bundle of lines 73-97.
 * ABI encoding, signing and the commitment hash are the registrar's and the
 * signer's; calls are kept as values with their arguments.
 */
module RegisterBundle {
  import opened Preflight

  const RegistrarControllerAddress: string := "0x283Af0B28c62C092C9727F1Ee09c02CA627EB7F5"
  /** Goerli. */
  const ChainId: nat := 5
  /** EIP-1559 transaction type. */
  const TxType: nat := 2
  /** 3 gwei. */
  const MaxFeePerGas: nat := 3_000_000_000
  /** 2 gwei. */
  const MaxPriorityFeePerGas: nat := 2_000_000_000
  const RegisterGasLimit: nat := 300000
  const CommitGasLimit: nat := 60000

  /** registerWithConfig(name, owner, duration, secret, resolver, addr) as the controller receives it. */
  datatype RegisterCall = RegisterWithConfig(
    name: string, owner: string, duration: nat, secret: string, resolver: string, addr: string)

  datatype Transaction = Transaction(
    chainId: nat,
    txType: nat,
    value: nat,
    to: string,
    data: RegisterCall,
    maxFeePerGas: nat,
    maxPriorityFeePerGas: nat,
    gasLimit: nat)

  /** Transactions handed to the relay for one target block. */
  datatype Bundle = Bundle(transactions: seq<Transaction>, targetBlock: nat)

  /** makeCommitmentWithConfig(name, owner, secret, resolver, addr): the registrar hashes these. */
  datatype CommitmentRequest = MakeCommitmentWithConfig(
    name: string, owner: string, secret: string, resolver: string, addr: string)

  /** controller.commit(commitment, ...) with its gas options. */
  datatype CommitTx = CommitTx(
    commitment: string, maxFeePerGas: nat, maxPriorityFeePerGas: nat, gasLimit: nat)

  /** The committed arguments: the registration's, with the owner also as the resolved address. */
  function CommitmentRequestFor(reg: Registration): (req: CommitmentRequest)
    ensures req.addr == req.owner == reg.owner
    ensures req.name == reg.name && req.secret == reg.secret && req.resolver == reg.resolver
  {
    MakeCommitmentWithConfig(reg.name, reg.owner, reg.secret, reg.resolver, reg.owner)
  }

  /** The commit carries the registrar's commitment unchanged, with the fixed gas options of lines 58-60. */
  function CommitTransaction(commitment: string): (tx: CommitTx)
    ensures tx.commitment == commitment
    ensures tx.gasLimit == CommitGasLimit && tx.maxFeePerGas == MaxFeePerGas && tx.maxPriorityFeePerGas == MaxPriorityFeePerGas
  {
    CommitTx(commitment, MaxFeePerGas, MaxPriorityFeePerGas, CommitGasLimit)
  }

  /** The one register transaction: same for every attempt. */
  function RegisterTransaction(reg: Registration): (tx: Transaction)
    ensures tx.value == reg.price && tx.to == RegistrarControllerAddress
    ensures tx.data.owner == tx.data.addr == reg.owner
    ensures tx.data.name == reg.name && tx.data.duration == reg.duration &&
      tx.data.secret == reg.secret && tx.data.resolver == reg.resolver
    ensures tx.chainId == ChainId && tx.txType == TxType && tx.gasLimit == RegisterGasLimit
  {
    Transaction(
      ChainId, TxType, reg.price, RegistrarControllerAddress,
      RegisterWithConfig(reg.name, reg.owner, reg.duration, reg.secret, reg.resolver, reg.owner),
      MaxFeePerGas, MaxPriorityFeePerGas, RegisterGasLimit)
  }

  /** The bundle sent to the relay for one target block. */
  function Build(reg: Registration, targetBlock: nat): (b: Bundle)
    ensures b.targetBlock == targetBlock
    ensures |b.transactions| == 1
  {
    Bundle([RegisterTransaction(reg)], targetBlock)
  }

  /** Two attempts for one registration differ in their target block and in nothing else. */
  lemma OnlyTargetDiffers(reg: Registration, t1: nat, t2: nat)
    ensures Build(reg, t1).transactions == Build(reg, t2).transactions
    ensures Build(reg, t1) == Build(reg, t2) <==> t1 == t2
    ensures Build(reg, t1) == Build(reg, t2).(targetBlock := t1)
  {
  }

  /**
   * The register call pays the marked-up price to the controller and names
   * the owner both as owner and as the address the resolver points at.
   */
  lemma RegisterCallArguments(reg: Registration, targetBlock: nat)
    ensures var tx := Build(reg, targetBlock).transactions[0];
      tx.value == reg.price && tx.to == RegistrarControllerAddress &&
      tx.data == RegisterWithConfig(reg.name, reg.owner, reg.duration, reg.secret, reg.resolver, reg.owner)
  {
  }

  /** The reveal matches the commitment: the register call repeats every committed argument. */
  lemma RevealMatchesCommitment(reg: Registration, targetBlock: nat)
    ensures var call := Build(reg, targetBlock).transactions[0].data;
      var req := CommitmentRequestFor(reg);
      call.name == req.name && call.owner == req.owner && call.secret == req.secret &&
      call.resolver == req.resolver && call.addr == req.addr
  {
  }
}
