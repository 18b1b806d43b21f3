/** Accounts and the token, associated-token and system programs the route calls,
    as partial functions on the ledger.  `None` is a failed inner instruction. */
module TokenLedger {
  import opened Base
  import opened TradingVenue
  import opened RouteTypes

  /** The system program's address is all zeros. */
  const SYSTEM_PROGRAM: Pubkey := 0
  const TOKEN_ACCOUNT_LEN: nat := 165

  /** What the route reads of an account: its lamports, owning program and data length,
      and the bytes at the token-account and mint offsets it looks at. */
  datatype Account = Account(
    lamports: nat,
    program: Pubkey,
    dataLen: nat,
    authority: Pubkey,
    mint: Pubkey,
    amount: u64,
    decimals: u8)

  const ABSENT := Account(0, SYSTEM_PROGRAM, 0, 0, 0, 0, 0)

  type Ledger = map<Pubkey, Account>

  /** The outside world: program ids, address derivation, rent, and the venue program,
      which may answer an instruction with any ledger or fail. */
  datatype Env = Env(
    splToken: Pubkey,
    token2022: Pubkey,
    nativeMint: Pubkey,
    quayProgram: Pubkey,
    ataOf: (Pubkey, Pubkey, Pubkey) -> Pubkey,
    rent: nat,
    venue: (Instruction, seq<AccountMeta>, Ledger) -> Option<Ledger>)

  function At(ledger: Ledger, key: Pubkey): Account {
    if key in ledger then ledger[key] else ABSENT
  }

  /** `account_exists`. */
  predicate Exists(ledger: Ledger, key: Pubkey) {
    At(ledger, key).lamports > 0 && At(ledger, key).dataLen > 0
  }

  /** `extract_token_amount`: bytes 64..72, if there are that many. */
  function TokenAmount(ledger: Ledger, key: Pubkey): Option<u64> {
    if At(ledger, key).dataLen >= 72 then Some(At(ledger, key).amount) else None
  }

  /** `extract_token_amount(..).unwrap_or(0)`. */
  function Balance(ledger: Ledger, key: Pubkey): u64 {
    if TokenAmount(ledger, key).Some? then At(ledger, key).amount else 0
  }

  predicate IsTokenProgram(env: Env, program: Pubkey) {
    program == env.splToken || program == env.token2022
  }

  /** `is_titan_pda_token_account`. */
  predicate IsTitanAccount(env: Env, ledger: Ledger, key: Pubkey, titan: Pubkey) {
    var account := At(ledger, key);
    IsTokenProgram(env, account.program) && account.dataLen >= TOKEN_ACCOUNT_LEN && account.authority == titan
  }

  /** `get_token_program_for_mint`. */
  function ProgramForMint(env: Env, ledger: Ledger, mint: Pubkey): Pubkey {
    if At(ledger, mint).program == env.token2022 then env.token2022 else env.splToken
  }

  predicate IsInitialized(account: Account, program: Pubkey) {
    account.program == program && account.dataLen >= TOKEN_ACCOUNT_LEN
  }

  /** Moving `amount` tokens, with the lamports behind native ones. */
  function Credit(env: Env, account: Account, amount: nat): Account
    requires account.amount + amount <= U64_MAX
  {
    account.(amount := account.amount + amount,
             lamports := account.lamports + if account.mint == env.nativeMint then amount else 0)
  }

  predicate CanDebit(env: Env, account: Account, amount: nat) {
    amount <= account.amount && (account.mint == env.nativeMint ==> amount <= account.lamports)
  }

  function Debit(env: Env, account: Account, amount: nat): Account
    requires CanDebit(env, account, amount)
  {
    account.(amount := account.amount - amount,
             lamports := account.lamports - if account.mint == env.nativeMint then amount else 0)
  }

  /** The token program's `transfer`, or Token-2022's `transfer_checked` with its mint
      and decimals checks: exact debit and credit, no-op on a self transfer. */
  function Transfer(env: Env, ledger: Ledger, program: Pubkey, from: Pubkey, to: Pubkey, authority: Pubkey,
                    mint: Pubkey, amount: u64, decimals: u8): (r: Option<Ledger>)
  {
    var source, target := At(ledger, from), At(ledger, to);
    if !IsInitialized(source, program) || !IsInitialized(target, program)
       || source.mint != target.mint || source.authority != authority || source.amount < amount
    then None
    else if program == env.token2022 && (source.mint != mint || At(ledger, mint).decimals != decimals)
    then None
    else if from == to then Some(ledger)
    else if target.amount + amount > U64_MAX || !CanDebit(env, source, amount) then None
    else Some(ledger[from := Debit(env, source, amount)][to := Credit(env, target, amount)])
  }

  /** `transfer_tokens`: a zero amount makes no call at all. */
  function TransferTokens(env: Env, ledger: Ledger, program: Pubkey, from: Pubkey, to: Pubkey, authority: Pubkey,
                          mint: Pubkey, amount: u64, decimals: u8): (r: Option<Ledger>)
  {
    if amount == 0 then Some(ledger)
    else Transfer(env, ledger, program, from, to, authority, mint, amount, decimals)
  }

  /** `create_associated_token_account_idempotent`, invoked with `ata` as the only
      account it could create.  A native account takes surplus lamports as its balance. */
  function CreateAta(env: Env, ledger: Ledger, owner: Pubkey, mint: Pubkey, ata: Pubkey, program: Pubkey): (r: Option<Ledger>)
  {
    var account := At(ledger, ata);
    if ata != env.ataOf(owner, mint, program) then None
    else if account.program == program then
      if account.dataLen >= TOKEN_ACCOUNT_LEN && account.authority == owner && account.mint == mint
      then Some(ledger) else None
    else if account.program != SYSTEM_PROGRAM || account.dataLen != 0 then None
    else
      var lamports := Max(account.lamports, env.rent);
      var surplus := if mint == env.nativeMint then lamports - env.rent else 0;
      if surplus > U64_MAX then None
      else Some(ledger[ata := Account(lamports, program, TOKEN_ACCOUNT_LEN, owner, mint, surplus, 0)])
  }

  /** `close_account`: only empty (or native) accounts close, and only for their authority. */
  function CloseAccount(env: Env, ledger: Ledger, key: Pubkey, destination: Pubkey, authority: Pubkey, program: Pubkey): (r: Option<Ledger>)
  {
    var account := At(ledger, key);
    if !IsInitialized(account, program) || account.authority != authority || key == destination then None
    else if account.amount != 0 && account.mint != env.nativeMint then None
    else
      var receiver := At(ledger, destination);
      Some(ledger[key := ABSENT][destination := receiver.(lamports := receiver.lamports + account.lamports)])
  }

  /** System `transfer` out of a data-less system account. */
  function SystemTransfer(ledger: Ledger, from: Pubkey, to: Pubkey, lamports: u64): (r: Option<Ledger>)
  {
    var source := At(ledger, from);
    if source.program != SYSTEM_PROGRAM || source.dataLen != 0 || source.lamports < lamports then None
    else
      var debited := ledger[from := source.(lamports := source.lamports - lamports)];
      var target := At(debited, to);
      Some(debited[to := target.(lamports := target.lamports + lamports)])
  }

  /** `sync_native`: the balance becomes the lamports above rent, and never drops. */
  function SyncNative(env: Env, ledger: Ledger, key: Pubkey, program: Pubkey): (r: Option<Ledger>)
  {
    var account := At(ledger, key);
    if !IsInitialized(account, program) || account.mint != env.nativeMint then None
    else
      var synced := account.lamports - env.rent;
      if synced < account.amount || synced > U64_MAX then None
      else Some(ledger[key := account.(amount := synced)])
  }

  /** Every titan-owned token account other than `except` reads the same in both ledgers. */
  ghost predicate KeepsTitan(env: Env, titan: Pubkey, before: Ledger, after: Ledger, except: set<Pubkey>) {
    forall key {:trigger At(after, key)} :: IsTitanAccount(env, before, key, titan) && key !in except ==>
      IsTitanAccount(env, after, key, titan) && At(after, key).amount == At(before, key).amount
  }

  /** The ids of the two token programs are not the system program's. */
  ghost predicate GenuinePrograms(env: Env) {
    env.splToken != SYSTEM_PROGRAM && env.token2022 != SYSTEM_PROGRAM
  }

  /** A transfer signed by anyone but the TitanPDA leaves its accounts' balances alone,
      bar a credit. */
  lemma TransferByOther(env: Env, ledger: Ledger, program: Pubkey, from: Pubkey, to: Pubkey, authority: Pubkey,
                        mint: Pubkey, amount: u64, decimals: u8, titan: Pubkey)
    requires authority != titan
    requires TransferTokens(env, ledger, program, from, to, authority, mint, amount, decimals).Some?
    ensures var after := TransferTokens(env, ledger, program, from, to, authority, mint, amount, decimals).value;
            && KeepsTitan(env, titan, ledger, after, {to})
            && (IsTitanAccount(env, ledger, to, titan) ==>
                 IsTitanAccount(env, after, to, titan) && At(after, to).amount == At(ledger, to).amount + amount)
  {
    var after := TransferTokens(env, ledger, program, from, to, authority, mint, amount, decimals).value;
    forall key | IsTitanAccount(env, ledger, key, titan) && key !in {to}
      ensures IsTitanAccount(env, after, key, titan) && At(after, key).amount == At(ledger, key).amount
    {
      assert At(after, key) == At(ledger, key);
    }
    if IsTitanAccount(env, ledger, to, titan) {
      assert from != to || amount == 0;
      assert IsTitanAccount(env, after, to, titan);
      assert At(after, to).amount == At(ledger, to).amount + amount;
    }
  }

  lemma CreateAtaKeepsTitan(env: Env, ledger: Ledger, owner: Pubkey, mint: Pubkey, ata: Pubkey, program: Pubkey, titan: Pubkey)
    requires GenuinePrograms(env)
    requires CreateAta(env, ledger, owner, mint, ata, program).Some?
    ensures KeepsTitan(env, titan, ledger, CreateAta(env, ledger, owner, mint, ata, program).value, {})
  {
    var after := CreateAta(env, ledger, owner, mint, ata, program).value;
    forall key | IsTitanAccount(env, ledger, key, titan)
      ensures IsTitanAccount(env, after, key, titan) && At(after, key).amount == At(ledger, key).amount
    {
      assert At(after, key) == At(ledger, key).(lamports := At(after, key).lamports);
    }
  }

  lemma CloseByOtherKeepsTitan(env: Env, ledger: Ledger, closing: Pubkey, destination: Pubkey, authority: Pubkey, program: Pubkey, titan: Pubkey)
    requires authority != titan
    requires CloseAccount(env, ledger, closing, destination, authority, program).Some?
    ensures KeepsTitan(env, titan, ledger, CloseAccount(env, ledger, closing, destination, authority, program).value, {})
  {
    var after := CloseAccount(env, ledger, closing, destination, authority, program).value;
    forall key | IsTitanAccount(env, ledger, key, titan)
      ensures IsTitanAccount(env, after, key, titan) && At(after, key).amount == At(ledger, key).amount
    {
      assert At(after, key) == At(ledger, key).(lamports := At(after, key).lamports);
    }
  }

  /** Closing an empty account moves lamports only: every token balance reads the same. */
  lemma CloseEmptyKeepsBalances(env: Env, ledger: Ledger, key: Pubkey, destination: Pubkey, authority: Pubkey, program: Pubkey)
    requires Balance(ledger, key) == 0
    requires CloseAccount(env, ledger, key, destination, authority, program).Some?
    ensures forall k :: Balance(CloseAccount(env, ledger, key, destination, authority, program).value, k) == Balance(ledger, k)
  {
  }
}
