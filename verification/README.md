# Verified model of the diginaut wallet, its library, indexer and faucet

This project models the parts of the wallet where a mistake loses money, and proves what they
promise. `dafny verify dfyconfig.toml` checks all of it.

**The vault** (`VaultState`, `Texts`, `VaultMutations`, `VaultEffects`, `VaultProtocol`, `VaultHistory`, `VaultCoherence`,
`VaultMigration`, `VaultCalls`, `VaultLives`, `VaultRaces`, `VaultManager`). Several browser tabs share one stored record. A call
is a chain of segments, each running from one await to the next; `VaultProtocol.Next` runs one segment of
one call of one tab, so a run is any interleaving, with locks, refreshes and crashed tabs anywhere.
Encryption is symbolic: a ciphertext opens under the key it was sealed with and no other, and a key is the pair
of a password and a kdf block. The history theorems carry one condition: a mutation starts in a tab whose
secrets are the plaintext of its own record. `VaultRaces` shows by a run that the condition is needed: `unlock`
sets `record` before an await and `secrets` after it, `refresh` likewise. `VaultCoherence` replaces the
condition by one on scheduling, and `Agrees` is the exact one for each mutation: what it reads or carries over
of the stored secrets is what the tab holds. The theorems speak of one life of the record, from a moment when no
vault can be opened, with or without a v1 record, to its deletion, because revisions restart at 1
(`RevisionCheckIgnoresLives`); `VaultLives` drops both conditions and says exactly which commits break a
history. `VaultEffects` says field by field what each mutation writes and exactly when, and `VaultCalls` what each whole
call stores when nothing disturbs it. The class `VaultManager` updates the four closure variables in place and is proved, segment by segment,
to take exactly the steps of the interleaved system.

**Transactions** (`TxWire`, `WireDecode`, `TxReader`, `TxForms`, `Envelope`, `EnvelopeRules`, `Builders`, `Quotes`, `Custody`, `CoinSelect`,
`SpendWeight`, `Indexer`, `TokenRules`, `Ledger`, `LedgerScans`, `Review`). The serializer and the two programs that read transactions back are modelled on bytes.
The four builders take keys, hashes and signatures as opaque functions of what they are computed from, with
the lengths signatures have; `Custody` says position by position whose script each output is and whose key signs
what, and `Quotes` what collateral a mint locks. `WireDecode` reads the serializer's bytes back as BIP-144 (section
"Serialization") lays them out. `SpendWeight` compares the planned fee with the BIP-141 size of the bytes that
are serialized, both roundings written out (section "Transaction size calculations"). `Ledger` puts a set of spent outpoints under the
builders and proves that the DigiDollar on unspent outputs is always backed by the open positions;
`LedgerScans` proves that these two sums are what the indexer's two scans find over all addresses and owners.
`Review` proves that what the review screens accept the builders accept.

**Addresses** (`Positional`, `Registers`, `Lfsr`, `BitGroups`, `Alphabets`, `Bech32`, `Bech32Laws`,
`AddressVectors`, `Base58`, `DDAddress`). `Registers` proves checksum theorems for any linear feedback register; `Lfsr` proves, on 32-bit
words, that `polymod` is one. BIP-173 (section "Bech32") and BIP-350 (section "Bech32m") are the standards followed.

**Services** (`Frames`, `Faucet`, `ReceiveScan`). The Electrum frame assembler as a class whose ghost fields
record every byte received, every frame cut and every byte searched; the faucet's claims as a step system
with the class that takes those steps; the receive-chain scan of BIP-44 (section "Address gap limit"),
batch by batch, beside everything else the screen does.

Where the code and its comments differ the code is modelled:

- `vault.js:19` says wallet ids are never reused. They are the clock, bumped past the ids in use, so a
  removed wallet's id can come back if the clock does. Nothing here relies on the comment.
- `vault.js:100-104` explains why `commit` reads its base revision before any await. `migrateV1` reads
  `record?.rev` after one (`vault.js:176-180`); `LateMigrationDropsAddedWallet` is the consequence.
- `txbuild.js:477-478` calls largest-first selection "fewest inputs". That holds on coins of one type
  (`FewestCoins`); on a mix it can even find nothing (`MixedCoinsCanMiss`).
- `app.js:1194-1195` names a gap of 20 as the stopping rule. The scan asks in batches of five, so it may
  step over a gap of up to 23 and never one of 24 (`ReceiveScan.Scan`).
- `app.js:1222-1223` says one scan per open. The catch clears the busy flag whichever wallet it names, so the late
  failure of an earlier wallet's scan lets a second scan of the current one start (`OneScanIff`).
- `indexer/server.js:161-163` says a malformed line must not crash the process. A line that is JSON `null`
  passes `JSON.parse` and throws at `msg.id`, outside the `try` (`OnData` says exactly when and what stays buffered).
  An owner key off the curve likewise throws out of `scanPositions` (`ScanThrowsIff`).
- `faucet/server.js:61-62` promises a cooldown per address and per IP. The ledger is a plain object, so an IP
  header that names an inherited property, such as `constructor`, has no cooldown and lends none to the address,
  and `__proto__` is never recorded (`SpacedExactlyWithoutHollowIps`, `ProtoIsPaidTwice`).

## Model

| member | source | states |
|---|---|---|
| VaultManagers.KeyStore.LoadKeystoreAny | apps/wallet/public/keystore.js:244-249 | returns both stored records as they are in one transaction |
| VaultManagers.KeyStore.SaveRecord | apps/wallet/public/keystore.js:256-266 | compare-and-set: writes revision base + 1 exactly when the stored revision is the base, else writes nothing |
| VaultManagers.KeyStore.DeleteRecord | apps/wallet/public/keystore.js:272-279 | deletes exactly when the stored revision is the base, else changes nothing |
| VaultManagers.KeyStore.DeleteKeystore | apps/wallet/public/keystore.js:235-237 | forgets the v1 record and nothing else |
| VaultManagers.VaultManager.Lock | apps/wallet/public/vault.js:191-194 | drops key and secrets, keeps record and primary |
| VaultManagers.VaultManager.OnLoaded | apps/wallet/public/vault.js:72-86 | what refresh, unlock and createVault do with a loaded pair of records, up to their next await, is the step of the interleaved system |
| VaultManagers.VaultManager.Resume | apps/wallet/public/vault.js:71-188 | every await-delimited segment of every call, updating the closure variables in place, is exactly one step of the interleaved system |
| VaultManagers.VaultManager.Mutate | apps/wallet/public/vault.js:98-106 | a mutation takes its base revision, its kdf block and its plaintext from the tab before its first await |
| VaultManagers.NextWalletId | apps/wallet/public/vault.js:20-25 | the least number from the clock on that no wallet has |
| VaultMutations.ApplyKeepsWellFormed | apps/wallet/public/vault.js:199-315 | every mutation keeps: ids distinct and equal to the mnemonic keys, the active id among them, names distinct up to case and outer blanks, mnemonics distinct after normalisation, `derived` exactly on ids with a source |
| VaultMutations.FirstWellFormed | apps/wallet/public/vault.js:117-125 | the first vault, created or migrated, satisfies that invariant |
| VaultMutations.DeleteIffOnlyWallet | apps/wallet/public/vault.js:247-265 | a mutation asks for deletion exactly when it removes the only wallet |
| VaultMutations.OtherWalletsUntouched | apps/wallet/public/vault.js:199-315 | no mutation changes the row or the mnemonic of a wallet it does not name |
| VaultMutations.AddGrowsByOne | apps/wallet/public/vault.js:217-227 | a new seed under a free name appends one wallet that opens to that seed |
| VaultMutations.AddNeverDuplicates | apps/wallet/public/vault.js:199-216 | a seed already in the vault, up to case and white space, adds no wallet and no mnemonic |
| VaultMutations.RemoveForgets | apps/wallet/public/vault.js:266-277 | a removed wallet is gone from both halves; the active id moves only if it was active |
| VaultMutations.ApplyMonotone | apps/wallet/public/vault.js:288-315 | no mutation clears a backup mark or lowers a receive index |
| VaultMutations.WalletKept | apps/wallet/public/vault.js:247-278 | only removing that very wallet takes a wallet or its mnemonic away |
| VaultEffects.RenameIsExact | apps/wallet/public/vault.js:230-243 | renameWallet refuses exactly an unknown wallet, an empty name and one taken up to case and blanks; else it writes the trimmed name to that wallet's row and changes nothing else |
| VaultEffects.SetActiveIsExact | apps/wallet/public/vault.js:281-286 | setActive refuses exactly an unknown wallet, writes nothing for the active one, else writes the new active id and changes nothing else |
| VaultEffects.SetBackedUpIsExact | apps/wallet/public/vault.js:289-296 | setBackedUp refuses exactly an unknown wallet, else marks that wallet's row and changes nothing else |
| VaultEffects.SetReceiveIndexIsExact | apps/wallet/public/vault.js:304-315 | setReceiveIndex writes exactly an index that is a safe integer beyond the stored one, to that wallet's row, and changes nothing else; any other index writes nothing |
| VaultEffects.SetReceiveIndexRefuses | apps/wallet/public/vault.js:304-306 | it refuses exactly an unknown wallet |
| VaultEffects.RemoveIsExact | apps/wallet/public/vault.js:247-278 | removeWallet cuts exactly the wallet's row, mnemonic and source out; an active one hands over to the next in order, or to the one before it if it was the last |
| VaultEffects.AddKnownSeedIsExact | apps/wallet/public/vault.js:199-216 | a known seed writes exactly when it brings the first source of its wallet: then the source and the mark, and nothing else |
| VaultEffects.AddNewSeedIsExact | apps/wallet/public/vault.js:217-227 | a new seed is refused exactly under a taken name; else one row and one mnemonic are appended, field by field, under the least free number from the clock on |
| Texts.TrimIsExact | apps/wallet/public/vault.js:47-51 | trim cuts off the white space at both ends, all of it, and nothing else |
| Texts.SameSeedIff | apps/wallet/public/vault.js:17 | two mnemonics are the same seed exactly when they have the same words up to case |
| Texts.NormIsWords | apps/wallet/public/vault.js:17 | the normal form is the words in small letters with one blank between every two |
| VaultCalls.MutationStores | apps/wallet/public/vault.js:98-114 | a mutation that nothing disturbs stores the next revision, sealed under the tab's key with the record's own kdf block, and leaves the tab holding exactly that |
| VaultCalls.LastRemovalDeletes | apps/wallet/public/vault.js:247-265 | removing the only wallet deletes the record and locks the tab |
| VaultCalls.CreateStores | apps/wallet/public/vault.js:117-133 | createVault over nothing stores, field by field, the one wallet it was asked for as revision 1 under a key of the password and the fresh salt, and leaves the tab unlocked |
| VaultCalls.CreateRefuses | apps/wallet/public/vault.js:118 | over any stored record, or in an unlocked tab, it changes nothing stored and no key |
| VaultCalls.UnlockOpens | apps/wallet/public/vault.js:136-160 | over a vault and no v1 record, exactly the right password gives the tab the key and the stored plaintext |
| VaultCalls.UnlockClearsOrphan | apps/wallet/public/vault.js:149-156 | over a vault the password opens, a v1 record beside it is deleted |
| VaultCalls.UnlockMigrates | apps/wallet/public/vault.js:162-188 | where the password opens the v1 record and no vault, the stored vault is the v1 mnemonic as the one wallet, under a fresh salt, one revision on, and the v1 record goes |
| VaultCalls.UnverifiedKeepsV1 | apps/wallet/public/vault.js:178-182 | a migrated record that does not open under its key ends the migration before v1 is deleted |
| VaultCalls.UnlockRefuses | apps/wallet/public/vault.js:136-160 | where it opens neither, nothing stored, no key and no secrets change |
| VaultCalls.RefreshFollows | apps/wallet/public/vault.js:74-87 | refresh leaves the tab holding what is stored, unlocked exactly when it was and its key opens that |
| VaultHistory.LinearHistory | apps/wallet/public/vault.js:98-114 | in every interleaving of any number of tabs within one life of the record, begun with no vault or one no password opens and with or without a v1 record, with coherent commits: stored revision n + 1 is exactly one mutation applied to the plaintext of revision n under the same kdf block, or the v1 record migrated over it; the first is the one wallet createVault was asked for, field by field, or the migrated vault |
| VaultHistory.HistoryIsWhatWasStored | apps/wallet/public/keystore.js:256-266 | along every such run the recorded history is the store's own: it grows by the stored record at every write and at nothing else |
| VaultHistory.LosingCallLeavesStore | apps/wallet/public/vault.js:107-113 | a commit or deletion whose base revision moved changes nothing stored, and the tab reloads |
| VaultHistory.DeletedOnlyAsLastWallet | apps/wallet/public/vault.js:252-265 | along every such run the record disappears only when the wallet being removed is the only one stored |
| VaultHistory.EveryRecordOpens | apps/wallet/public/keystore.js:83-97 | every record of a life, created, migrated or committed, opens with the master password and its own kdf block, and with no other password, whatever iteration constants the writers had; after a v1 record that password is the v1 one |
| VaultHistory.UnlockedVaultWellFormed | apps/wallet/public/vault.js:47-61 | every coherent tab of every run holds a stored revision and a vault with the invariant above, or, by a coincidence of keys, the unopenable record the life began with |
| VaultHistory.WalletNeverGoesBack | apps/wallet/public/vault.js:288-315 | along the history of every such run a wallet's backup mark and receive index never go back, unless the v1 record was migrated over the vault in between |
| VaultHistory.NoMnemonicLost | apps/wallet/public/vault.js:100-105 | a wallet stored at one revision is there with its mnemonic at every later one unless its removal or a migration came between |
| VaultHistory.RacesLoseNothing | apps/wallet/public/vault.js:95-114 | where a life begins without a v1 record only its removal takes a wallet or its mnemonic away |
| VaultHistory.MigrationReadsItsRecordLate | apps/wallet/public/vault.js:176-180 | the record migrateV1 saves over is the one the tab holds after the seal |
| VaultHistory.MigrationReplacesIffSeen | apps/wallet/public/vault.js:178-181 | once a good vault is stored, a migration's save replaces it exactly when the record the tab held after the seal is that very vault |
| VaultHistory.CommitIsMutationIff | apps/wallet/public/vault.js:98-106 | what a mutation computes from a record's meta and the secrets a tab holds is one mutation of that record exactly when the tab's secrets agree with it in all that the mutation reads or carries over |
| VaultLives.LinearIffNothingStale | apps/wallet/public/keystore.js:256-263 | across lives of the record, with fresh salts and mutations started in any unlocked tab: a life is linear exactly when every commit that lands in it was computed from a record of this life and from secrets that agree with that record |
| VaultLives.LandingIsMutationIff | apps/wallet/public/vault.js:98-114 | even after such a loss: a commit of this life lands on the very record it was computed from, and stores one mutation of it exactly when its secrets agreed |
| VaultLives.FirstLife | apps/wallet/public/keystore.js:244-249 | an ordinary start, nobody unlocked and nothing stored that a password opens, begins a life |
| VaultLives.DeletionTakesItsOwnRecord | apps/wallet/public/keystore.js:272-279 | a deletion that lands takes the record it was asked of exactly when that record is of the same life |
| VaultLives.NextLife | apps/wallet/public/keystore.js:256-279 | when a life in which no commit of an earlier one landed ends, the next one begins, with whatever tabs and suspended calls still hold counted as left over |
| VaultCoherence.PromptRunsAreLinear | apps/wallet/public/vault.js:71-87 | runs in which no segment of a tab falls between its own setting of `record` and of `secrets` need no coherence condition; where a v1 record can change the vault's key, a tab must also not be unlocked anew while a commit of it waits |
| VaultMigration.MigrationNeverLosesTheSeed | apps/wallet/public/vault.js:162-188 | through any attempts, passwords, races and crashes some stored record yields the v1 mnemonic under its password, and v1 goes only once v2 is good |
| VaultMigration.EveryWrittenRecordOpens | apps/wallet/public/vault.js:166-187 | every v2 record written in such a run, in which wallets may be removed as long as one with the seed stays, opens with the password and its own kdf block and holds the seed |
| VaultMigration.UndisturbedUnlockFinishes | apps/wallet/public/vault.js:136-160 | from any reachable state one undisturbed unlock with the right password ends with v2 only, unlocked, with the seed |
| VaultMigration.AlwaysUnlockable | apps/wallet/public/vault.js:136-188 | so after any run from a v1 record the seed can still be unlocked |
| VaultCoherence.StartIsMutationIff | apps/wallet/public/vault.js:98-106 | what a tab can check as a mutation starts: its commit is one mutation of the tab's record exactly when the secrets it holds agree with that record; a coherent tab's do |
| VaultMutations.AppliesAlike | apps/wallet/public/vault.js:199-315 | a mutation that writes computes the same from two secrets exactly when they agree: fully, but for what a removal drops and for the source slot of a new wallet |
| VaultRaces.UnlockAcrossRefreshLosesMnemonic | apps/wallet/public/vault.js:136-142 | a reachable two-tab run: without coherence, a refresh inside unlock's decrypt lets a later commit drop the other tab's mnemonic |
| VaultRaces.LateMigrationDropsAddedWallet | apps/wallet/public/vault.js:176-181 | a reachable run of two tabs with randomness of their own: migrateV1 reads the record's revision after an await and overwrites a wallet another tab added |
| VaultRaces.RevisionCheckIgnoresLives | apps/wallet/public/keystore.js:256-263 | a reachable run: with a commit in flight another tab deletes the vault and creates one; the commit lands on revision 1 of the new life, which its password no longer opens |
| TxWire.WriteVarint | packages/digidollar-js/src/txbuild.js:52-56 | one byte below 253, three up to 65535, refused above |
| TxWire.SerializeTx | packages/digidollar-js/src/txbuild.js:196-208 | the segwit wire form, refused exactly when a count or length is out of varint range |
| TxReader.ReadVarintAt | apps/wallet/public/broadcastlog.js:26-38 | a varint of any width, with missing bytes read as zero and values above 32 bits refused |
| TxReader.TxidFromSigned | apps/wallet/public/broadcastlog.js:45-83 | the cursor loops compute the reader's specification |
| TxReader.CopyParts | apps/wallet/public/broadcastlog.js:76-79 | the three copies into the stripped buffer |
| TxReader.ScanFindsLayout | apps/wallet/public/broadcastlog.js:48-71 | the reader finds every boundary of a serialized transaction |
| TxReader.StripInvertsWire | apps/wallet/public/broadcastlog.js:65-79 | on serializeTx output the reader consumes every byte and hashes exactly the witness-free serialization |
| TxReader.TxidIgnoresWitness | apps/wallet/public/broadcastlog.js:40-45 | signatures do not move the txid |
| TxReader.AcceptedIsPrefixFree | apps/wallet/public/broadcastlog.js:72-75 | of two accepted byte strings neither begins the other |
| TxReader.OnlyTheWholeTransaction | apps/wallet/public/broadcastlog.js:72-75 | no proper prefix and no extension of a serialized transaction is accepted |
| TxForms.LegacyIsHashed | apps/wallet/public/broadcastlog.js:45-83 | a transaction of any wallet in the legacy form, its inputs with scripts of up to 65535 bytes, is read to its end and hashed as it is |
| TxForms.SegwitIsStripped | apps/wallet/public/broadcastlog.js:45-83 | the same transaction with witnesses is hashed as its legacy form, so both have one txid |
| WireDecode.DecodeInvertsWire | packages/digidollar-js/src/txbuild.js:196-208 | a decoder written by byte positions gives back every field serializeTx wrote: each txid in display order with vout and sequence, each value and script, every witness item, version and locktime |
| WireDecode.FitsIff | packages/digidollar-js/src/txbuild.js:52-56 | what serializeTx refuses, written out: any count or length above 65535 |
| WireDecode.WireIsExact | packages/digidollar-js/src/txbuild.js:196-208 | with numbers in range the decoder inverts it exactly, and no two transactions are written alike |
| WireDecode.FiveByteCount | apps/wallet/public/broadcastlog.js:31-33 | a count of five bytes is read |
| WireDecode.NineByteCount | apps/wallet/public/broadcastlog.js:34-37 | a count of nine bytes is refused exactly when it does not fit 32 bits |
| Envelope.VersionReadsBack | packages/digidollar-js/src/envelope.js:11-22 | a built nVersion reads back as its type, whatever its third byte and wrap-around |
| Envelope.VersionOnlyThen | packages/digidollar-js/src/envelope.js:18-22 | no other version announces that type |
| Envelope.EncodeLeMinimal | packages/digidollar-js/src/envelope.js:33-46 | the byte loop writes the specified digits with sign padding, and refuses negatives |
| Envelope.LeToBigInt | packages/digidollar-js/src/envelope.js:48 | the right fold is the little-endian value |
| Envelope.MinimalIffWritten | packages/digidollar-js/src/envelope.js:33-46 | the written bytes are the one minimal non-negative CScriptNum of the value, and nothing else is |
| Envelope.PushRange | packages/digidollar-js/src/envelope.js:28-46 | a number takes at most n bytes exactly when twice it is below 256^n |
| Envelope.ReadPushes | packages/digidollar-js/src/envelope.js:50-62 | the index loop reads the specified pushes, the last cut short by the end |
| Envelope.PushesReadBack | packages/digidollar-js/src/envelope.js:50-62 | a list of pushes reads back as itself exactly when each has at most 75 bytes |
| EnvelopeRules.PushesIff | packages/digidollar-js/src/envelope.js:50-62 | a script is read as exactly the pushes it consists of; the last may say up to 75 bytes and have fewer |
| Envelope.BuildTransferMetadata | packages/digidollar-js/src/envelope.js:95-104 | one push per amount, refused when empty or when an amount is not positive |
| Envelope.MintReadsBack | packages/digidollar-js/src/envelope.js:64-77 | buildMintMetadata refuses exactly an owner key that is not 32 bytes; what it builds from numbers in push range parses back to its fields |
| Envelope.TransferReadsBack | packages/digidollar-js/src/envelope.js:86-92 | transfer amounts in push range parse back |
| Envelope.RedeemReadsBack | packages/digidollar-js/src/envelope.js:112-118 | buildRedeemMetadata refuses exactly a change that is not positive; a change in push range parses back |
| Envelope.OneTypePerScript | packages/digidollar-js/src/envelope.js:64-118 | no script is metadata of two types |
| EnvelopeRules.MintAccepts | packages/digidollar-js/src/envelope.js:64-77 | the mint parser accepts exactly a script that carries code 1, three numbers and a key of 32 bytes, and gives those |
| EnvelopeRules.TransferAccepts | packages/digidollar-js/src/envelope.js:86-92 | the transfer parser accepts exactly a script that carries code 2 and one number or more |
| EnvelopeRules.RedeemAccepts | packages/digidollar-js/src/envelope.js:112-118 | the redeem parser accepts exactly a script that carries code 3 and one number |
| Envelope.KnownScripts | packages/digidollar-js/src/envelope.js:95-143 | the metadata of a mint and of a transfer that Core made, byte for byte |
| Builders.TierIndex | packages/digidollar-js/src/index.js:30-32 | the first tier with that id, or none |
| Builders.CeilDivLeast | packages/digidollar-js/src/index.js:34 | the least whole number of divisors that covers the dividend |
| Quotes.TiersAreCores | packages/digidollar-js/src/index.js:15-32 | each tier id has the code, lock length and ratio of Core's table, written out |
| Quotes.CollateralIsExact | packages/digidollar-js/src/index.js:56-72 | the collateral written out: ratio = tier ratio * multiplier / 10000 rounded up, base = cents * 10^8 * 100 * ratio / price rounded up, result = base * 101 / 100 rounded down, refused exactly beyond MAX_MONEY |
| Quotes.CollateralRefuses | packages/digidollar-js/src/index.js:56-72 | an unknown tier, no DigiDollar and no price are refused |
| Quotes.NegativeMultiplier | packages/digidollar-js/src/index.js:56-72 | a negative multiplier is not refused and asks for no collateral |
| Quotes.KnownQuotes | packages/digidollar-js/src/index.js:56-72 | two quotes of the library's tests |
| Builders.MakeTransferOutputs | packages/digidollar-js/src/txbuild.js:225-256 | the pushes build the specified outputs and refuse any DigiDollar output under a dollar |
| Builders.SpendConserves | packages/digidollar-js/src/txbuild.js:543-581 | a spend succeeds exactly when its inputs cover amount and fee; inputs = amount + change + paid, paid in [fee, fee + 100000), no dust change |
| Builders.MintConserves | packages/digidollar-js/src/txbuild.js:591-635 | a mint pays exactly the required collateral to vout 0 and conserves value in the same sense |
| Builders.TransferConserves | packages/digidollar-js/src/txbuild.js:271-318 | a transfer conserves value and pays out all its cents in outputs of at least 100 |
| Builders.RedeemConserves | packages/digidollar-js/src/txbuild.js:372-447 | a redeem returns the whole collateral, conserves value and burns exactly the position's cents |
| Custody.SpendPays | packages/digidollar-js/src/txbuild.js:543-560 | a spend is built exactly when its coins cover it, and its outputs are the recipient's and the change |
| Custody.SpendSigns | packages/digidollar-js/src/txbuild.js:560-581 | its inputs are exactly the coins, in order, each signed over its own position under its own key, ECDSA or Schnorr by its type |
| Custody.MintIsBuiltIff | packages/digidollar-js/src/txbuild.js:591-612 | exactly when a mint is refused |
| Custody.MintPays | packages/digidollar-js/src/txbuild.js:591-625 | its outputs in full: the collateral under the owner, lock and amount, the DigiDollar and the metadata of the owner, change to the P2WPKH of the same key |
| Custody.MintSigns | packages/digidollar-js/src/txbuild.js:612-635 | its one input is the funding coin, signed under its key |
| Custody.TransferIsBuiltIff | packages/digidollar-js/src/txbuild.js:271-290 | exactly when a transfer is refused |
| Custody.TransferPays | packages/digidollar-js/src/txbuild.js:225-256 | output i is recipient i's own P2TR, the one after the last recipient is the sender's, then the DGB change and the metadata |
| Custody.TransferSigns | packages/digidollar-js/src/txbuild.js:290-318 | its inputs are the DigiDollar coin and the fee coin, each signed over its own position under its own key |
| Custody.TransferReaches | apps/indexer/server.js:270-286 | what the indexer then reads under any script is what that script's recipients were sent, and on the sender's script the rest on top |
| Custody.RedeemIsBuiltIff | packages/digidollar-js/src/txbuild.js:372-400 | exactly when a redeem is refused |
| Custody.RedeemPays | packages/digidollar-js/src/txbuild.js:338-370 | its outputs in full: the whole collateral and the DigiDollar left over go back to the owner's script |
| Custody.RedeemSigns | packages/digidollar-js/src/txbuild.js:400-447 | it spends the collateral by the leaf of its owner, lock and amount once the lock is over, then exactly the burned coins, then the fee coin, each signed over its own position |
| CoinSelect.PlanSpend | packages/digidollar-js/src/txbuild.js:483-505 | the selection loop returns the shortest covering prefix of a descending arrangement, or nothing |
| CoinSelect.PlanIsFirst | packages/digidollar-js/src/txbuild.js:491-504 | the plan is the first covering prefix; there is none only when no prefix covers |
| CoinSelect.PlanAddsUp | packages/digidollar-js/src/txbuild.js:483-505 | the inputs are a sub-multiset, total = amount + fee + change with change not negative, and no zero-value coin is chosen for a positive amount |
| CoinSelect.LargestAreWorthMost | packages/digidollar-js/src/txbuild.js:477-484 | no k coins are worth more than the k largest |
| CoinSelect.FewestCoins | packages/digidollar-js/src/txbuild.js:477-505 | on coins of one type the plan uses the fewest coins of any covering choice, and fails only when none covers |
| CoinSelect.MixedCoinsAtTheHeavierPrice | packages/digidollar-js/src/txbuild.js:469-505 | on any mix it finds a plan whenever some choice covers the amount and a fee priced at the heavier input |
| CoinSelect.BestIsWorthMost | packages/digidollar-js/src/txbuild.js:469-505 | no choice of coins is worth more after fees than as many largest coins of each type |
| CoinSelect.MissesNothingIff | packages/digidollar-js/src/txbuild.js:483-505 | on any mix it misses no amount exactly when, for all a and b, some number of largest coins is worth as much after fees as the a largest P2TR and the b largest P2WPKH coins |
| CoinSelect.MixedCoinsCanMiss | packages/digidollar-js/src/txbuild.js:483-505 | on a mix it can fail although a choice covers: a concrete wallet |
| CoinSelect.PriceIsRelayMinimum | packages/digidollar-js/src/txbuild.js:496-500 | the price of a weight is exactly the relay minimum: the least fee with 1000 * fee >= rate * v for the least v with 4 * v >= weight |
| CoinSelect.PlanPaysRelayMinimum | packages/digidollar-js/src/txbuild.js:483-505 | a plan's fee is the relay minimum of its planned weight, and its inputs are worth amount, fee and change |
| CoinSelect.MaxPlanIsExact | packages/digidollar-js/src/txbuild.js:519-532 | planMaxSpend takes every coin and the relay minimum, sends the rest, and throws exactly without a coin or a rest |
| CoinSelect.DefaultRecipientIsP2tr | packages/digidollar-js/src/txbuild.js:490 | without a recipient script, or with an empty one, a P2TR recipient is priced |
| SpendWeight.ExactWeight | packages/digidollar-js/src/txbuild.js:455-475 | the planned weight is the BIP-141 weight of the serialized spend, less what short signatures save, plus 8 from a 253-byte script on |
| SpendWeight.PlannedSpendPaysItsWay | packages/digidollar-js/src/txbuild.js:456-505 | a spend built from a plan pays the relay minimum of its own serialized bytes, vsize and fee each rounded up, at any mix, on both sides of 253 inputs, change kept or folded |
| SpendWeight.PlannedMaxPaysItsWay | packages/digidollar-js/src/txbuild.js:519-532 | so does send-everything, with one output and the fee exactly as planned |
| SpendWeight.PaysItsWayIff | packages/digidollar-js/src/txbuild.js:470-505 | at any script length a planned spend pays its way exactly when the relay minimum of its planned weight plus folded change reaches the relay minimum of that weight less what short signatures and a missing change output save, plus 8 units from a 253-byte script on |
| SpendWeight.LongScriptUnderpaysIff | packages/digidollar-js/src/txbuild.js:470-475 | with P2TR coins alone it underpays exactly when it keeps its change, the script has 253 bytes or more, and the relay minimum of 8 more units is higher |
| SpendWeight.LongScriptUnderpays | packages/digidollar-js/src/txbuild.js:470-475 | in particular at every rate from 500 sats/kvB |
| Indexer.TokensAreOutputs | apps/indexer/server.js:284-285 | an amount is only ever given to a zero-value P2TR output, and never two to one output |
| TokenRules.FirstReturnIff | apps/indexer/server.js:273 | the metadata is the first output whose script begins 6a |
| TokenRules.ListsIff | apps/indexer/server.js:270-282 | the amounts a transaction lists, by the type in its version; a redeem without metadata lists none, any other malformed one nothing |
| TokenRules.PairedByPlace | apps/indexer/server.js:283-284 | an output has cents exactly when it is a zero-value one that begins 5120 and the amounts reach its place among those, counted; then it has the amount of that place |
| Indexer.ScanPositions | apps/indexer/server.js:232-264 | the scan loop returns the owner's unspent mints in history order, or throws where an owner key is off the curve |
| Indexer.ScanThrowsIff | apps/indexer/server.js:245 | the scan throws exactly when some mint in the history, whoever owns it, has an owner key off the curve |
| TokenRules.PositionsAre | apps/indexer/server.js:232-264 | a scan that ends reports exactly the positions that the owner's mints in the history open and whose collateral is unspent: txid, height, cents, tier id, unlock height and collateral, each from where it stands |
| Indexer.ScanDDUtxos | apps/indexer/server.js:288-298 | the memoised scan returns exactly the zero-value outputs with cents |
| Indexer.ReportsWhatCarriesCents | apps/indexer/server.js:288-298 | a report is in the result exactly when some unspent zero-value output carries those cents, under its own txid, vout and height |
| Custody.MintOpensPosition | apps/indexer/server.js:232-264 | a built mint is reported while its collateral is unspent, to its owner alone, with its cents, tier id, unlock height and collateral |
| Indexer.MintIsReadBack | apps/indexer/server.js:270-286 | a built mint gives its cents to vout 1, on its owner's key, and to nothing else, and reads as the position it opens |
| Indexer.TransferIsReadBack | apps/indexer/server.js:270-286 | a built transfer is read back as intended, each recipient its cents and the change output the rest, exactly when its DGB change is folded away, or goes to no OP_RETURN script, or to one that lists the same amounts first |
| Indexer.OpReturnChangeHidesTokens | apps/indexer/server.js:273 | with such a change script that is not transfer metadata no output has any cents |
| Indexer.RedeemIsReadBack | apps/indexer/server.js:270-286 | a built redeem gives its change cents to vout 1, or nothing to any output |
| Indexer.CollateralIsPositive | packages/digidollar-js/src/index.js:56-72 | required collateral is positive for every positive multiplier |
| Ledger.SpendOne | apps/indexer/server.js:288-298 | spending one outpoint takes exactly its cents off the unspent balance |
| Ledger.MineBalance | apps/indexer/server.js:232-298 | a mined transaction moves a balance by what it creates less what it spends |
| Ledger.StepKeeps | packages/digidollar-js/src/txbuild.js:225-635 | each mint, transfer, redeem and planned spend keeps the supply equal to the open positions |
| Ledger.SupplyIsBacked | apps/indexer/server.js:226-298 | along every run from an empty ledger the cents on unspent DigiDollar outputs are the cents of the open positions, and equal all minted less all redeemed |
| LedgerScans.ScanFindsSupply | apps/indexer/server.js:288-298 | over all unspent outputs of a ledger scanDDUtxos finds exactly the supply |
| LedgerScans.OwnersScan | apps/indexer/server.js:226-264 | every open mint of an owner is in the history of the owner's address, so scanPositions finds exactly the owner's open cents |
| LedgerScans.OneOwner | apps/indexer/server.js:245 | a mint is reported to its owner and to nobody else |
| LedgerScans.ScansAgree | apps/indexer/server.js:226-298 | after every run the cents scanDDUtxos finds over all addresses and the cents of the positions scanPositions finds over all owners are both all minted less all redeemed, and no position scan throws |
| Review.PickIsBest | apps/wallet/public/coinpick.js:13-19 | a coin is picked exactly when one suffices; no coin that suffices beats it, written out: preferred taproot key before other taproot before P2WPKH, smaller before larger |
| Review.MintReviewIsExact | apps/wallet/public/app.js:3518-3533 | the mint review passes exactly when some coin lets the builder succeed, and its own pick then does at any tip |
| Review.BuilderAccepts | packages/digidollar-js/src/txbuild.js:280-286 | the transfer builder accepts a pair exactly when the coin can send the amount legally and the fee is covered |
| Review.TransferReviewIsExact | apps/wallet/public/app.js:3641-3681 | the transfer review passes exactly when some pair of coins makes the builder succeed, with the smallest DigiDollar coin that can |
| Review.FillBurn | apps/wallet/public/app.js:3751-3760 | the burn loop covers the position exactly when the address holds enough, with no coin too many |
| Review.FilledBurnRedeems | apps/wallet/public/app.js:3786-3800 | a filled burn set and a picked fee coin never make the redeem builder throw |
| Registers.AddFeedback | packages/digidollar-js/src/address.js:24 | xoring a generator for every set top bit adds the specified feedback |
| Registers.FeedbackLinear | packages/digidollar-js/src/address.js:18-27 | the feedback of an xor is the xor of the feedbacks |
| Registers.ChecksumIsUnique | packages/digidollar-js/src/address.js:61-63 | of a linear register, exactly one six-symbol ending reaches a target |
| Registers.BurstChangesRun | packages/digidollar-js/src/address.js:18-27 | of a linear register, words differing only inside six consecutive symbols end differently |
| Lfsr.StepWord | packages/digidollar-js/src/address.js:22-24 | one pass of the outer loop on a 32-bit word |
| Lfsr.Polymod | packages/digidollar-js/src/address.js:18-27 | both loops, on 32-bit words, compute the register run |
| Lfsr.PolymodIsGood | packages/digidollar-js/src/address.js:18-27 | polymod is such a register: linear, 30 bits wide, never emptied by zeros, filled by six symbols |
| BitGroups.ConvertBits | packages/digidollar-js/src/address.js:31-49 | with an accumulator that wraps at 32 bits and is never masked, the loops regroup the whole number, or refuse long or non-zero padding |
| BitGroups.BytesSurvive | packages/digidollar-js/src/address.js:31-49 | bytes regrouped to five bits and back are the same bytes |
| BitGroups.GroupsSurvive | packages/digidollar-js/src/address.js:31-49 | five-bit groups that decode re-encode to themselves |
| Bech32.ChecksumIff | packages/digidollar-js/src/address.js:61-63 | the decoder accepts exactly the six symbols the encoder appends |
| AddressVectors.KnownVersionZero | packages/digidollar-js/src/address.js:55-107 | the P2WPKH address of BIP-173 encodes and decodes as printed there |
| AddressVectors.KnownVersionOne | packages/digidollar-js/src/address.js:55-107 | a version 1 address of BIP-350 encodes and decodes as printed there |
| Alphabets.CharsetTable | packages/digidollar-js/src/address.js:14 | the symbols are those of BIP-173's table, row by row |
| Bech32Laws.DecodeInvertsEncode | packages/digidollar-js/src/address.js:55-65 | decode gives back what was encoded exactly when the prefix is non-empty lower-case, the length at most 90 and a v0 program 20 or 32 bytes |
| Bech32Laws.EncodeInvertsDecode | packages/digidollar-js/src/address.js:93-115 | a decoded address encodes to its lower-case form |
| Bech32Laws.AcceptsExactly | packages/digidollar-js/src/address.js:93-115 | a string decodes exactly when it is what the encoder writes, all in small letters or all in capitals, for a prefix that is not empty and small, at most 90 characters, and a v0 program of 20 or 32 bytes |
| Bech32Laws.CaseRises | packages/digidollar-js/src/address.js:95 | the capitals compared with are those of the 26 Latin letters |
| Bech32Laws.BurstIsRejected | packages/digidollar-js/src/address.js:93-107 | replacing characters inside six consecutive data positions by charset characters is rejected unless it switches the version between 0 and non-zero |
| Base58.MulAddDigits | packages/digidollar-js/src/address.js:140-148 | the two carry loops multiply a digit string and add |
| Base58.Base58Encode | packages/digidollar-js/src/address.js:134-153 | the encoder loops compute the specified string |
| Base58.Base58Decode | packages/digidollar-js/src/address.js:155-176 | the decoder loops compute the specified bytes, or refuse a foreign character |
| Base58.RebaseBack | packages/digidollar-js/src/address.js:134-176 | base conversion there and back is the identity on numerals |
| Base58.DecodeInvertsEncode | packages/digidollar-js/src/address.js:134-176 | decode inverts encode exactly on byte strings with a non-zero byte; n zero bytes come back as n + 2 |
| Base58.EncodeInvertsDecode | packages/digidollar-js/src/address.js:155-176 | encode inverts decode on every valid string that is not all ones |
| Base58.DecodesIff | packages/digidollar-js/src/address.js:134-176 | a byte string with a non-zero byte is read from its own encoding and from no other string |
| Alphabets.B58Alphabet | packages/digidollar-js/src/address.js:123 | the base58 alphabet is the 58 digits and letters but 0, I, O and l, in ASCII order |
| DDAddress.StartsWithLetters | packages/digidollar-js/src/address.js:126-130 | for every key and every checksum the address has 52 characters and starts DD, TD or RD |
| DDAddress.AddressBytes | packages/digidollar-js/src/address.js:199-205 | the address is the base58 form of the network's two version bytes, the key and the checksum of all 34 |
| DDAddress.ChecksumIff | packages/digidollar-js/src/address.js:183-191 | of all four-byte endings of a payload with a non-zero byte the decoder accepts exactly its checksum |
| DDAddress.NotBech | packages/digidollar-js/src/address.js:219-222 | such an address is never taken for a witness address |
| DDAddress.DDReadsBack | packages/digidollar-js/src/address.js:215-239 | the base58check form decodes to its key and network |
| DDAddress.WitnessReadsBack | packages/digidollar-js/src/address.js:219-229 | a taproot address of a network, in either case, decodes to its program and that network |
| DDAddress.BothFormsAgree | packages/digidollar-js/src/address.js:207-245 | both forms of a key decode to the same destination |
| DDAddress.DDAddressesDistinct | packages/digidollar-js/src/address.js:199-205 | no two keys or networks share an address |
| DDAddress.AcceptsExactly | packages/digidollar-js/src/address.js:215-239 | a string is an address of a key on a network exactly when it is their base58check address, or their taproot witness address in small letters or in capitals |
| Frames.ElectrumClient.Scan | apps/indexer/server.js:143-154 | the scan resumes at the first unscanned chunk and stops at the first newline |
| Frames.ElectrumClient.NextFrame | apps/indexer/server.js:142-154 | one turn of the loop moves one frame and its newline out of the buffer |
| Frames.ElectrumClient.OnData | apps/indexer/server.js:104-170 | below the frame limit it throws exactly when a newline-ended line in the buffer is JSON null: then the lines up to it are taken, those before it answered and the rest stays buffered; otherwise the frames so far are exactly the newline-ended segments of all bytes received, the buffer is the tail, every byte has been searched once, and the answered requests are settled. Above the limit every request fails and the socket is forgotten |
| Frames.ElectrumClient.OnSocketData | apps/indexer/server.js:66-71 | a socket that is no longer the client's changes nothing and throws nothing |
| Frames.ElectrumClient.Fail | apps/indexer/server.js:72-82 | a dead socket fails its own requests once and never its successor's |
| Frames.ElectrumClient.Send | apps/indexer/server.js:87-96 | a request gets an id never used before |
| Frames.SplitUnique | apps/indexer/server.js:104-117 | there is one way to read a stream as lines and an unfinished tail |
| Frames.SplitResumes | apps/indexer/server.js:135-142 | splitting can stop anywhere and resume from the tail alone |
| Faucet.PayoutsAreSpaced | apps/faucet/server.js:74-78 | over every interleaving two recorded payouts sharing an address or an IP are a cooldown apart, as long as no claim's IP is a name the ledger object inherits and does not hold |
| Faucet.SpacedExactlyWithoutHollowIps | apps/faucet/server.js:61-78 | for every starting ledger and every set of IPs, payouts are spaced in all runs exactly when no IP in the set is such a name |
| Faucet.ProtoIsPaidTwice | apps/faucet/server.js:74-78 | two claims of one address from the IP `__proto__`, one right after the other, are both paid and recorded |
| Faucet.ClaimsExclude | apps/faucet/server.js:112-120 | no two claims sharing either are inside the guarded section together |
| Faucet.AdmittedIff | apps/faucet/server.js:112-128 | inherited names aside, a claim is let in exactly when its address is one of this chain, none of the same address or IP is inside, and both were last paid a cooldown ago or more; a refused one is told the time really left |
| Faucet.LeavesExactly | apps/faucet/server.js:130-144 | a claim leaves with its locks when the oracle has no usable price or the node has answered; a payout is recorded for its address and its IP at the two clock readings, exactly when the node paid |
| Faucet.LocksReleased | apps/faucet/server.js:121-144 | locks are held by claims inside only, so every way out releases them |
| Faucet.Context.Guard | apps/faucet/server.js:116-129 | the synchronous guard, with inherited names looked up as the runtime does, takes both locks or changes nothing |
| Faucet.Context.HandleBegin | apps/faucet/server.js:88-129 | the stretch up to the oracle is the begin step |
| Faucet.Context.HandleOracle | apps/faucet/server.js:131-136 | the stretch after the oracle is its step |
| Faucet.Context.HandleSent | apps/faucet/server.js:137-144 | the stretch after sendtoaddress records, except under an inherited `__proto__`, and releases as its step does |
| Faucet.CaseDoesNotHelp | apps/faucet/server.js:106-108 | an address in capitals is the same claim as the same address in small letters |
| Faucet.DispenseClearsFloor | apps/faucet/server.js:49-57 | a whole number of DGB, at least the collateral floor plus ten percent, and less than one DGB more |
| ReceiveScan.ScanBatch | apps/wallet/public/app.js:1243 | a batch keeps the pair (highest, gap) exact |
| ReceiveScan.Scan | apps/wallet/public/app.js:1231-1244 | the scan ends; its answer is used or -1, is followed by 20 unused indices, misses no use that is not past a run of 20, and lies past no run of 24 |
| ReceiveScan.Wallet.SyncReceiveIndex | apps/wallet/public/app.js:1219-1230 | a scan of the wallet on screen starts exactly when one may: network known, wallet unlocked, no scan of it completed, and the busy flag not naming it |
| ReceiveScan.OneScanIff | apps/wallet/public/app.js:1228-1246 | over every run, with status polls and retries at any time: no call can give a wallet a second scan beside one in flight, exactly when no scan of an earlier wallet fails while the wallet on screen is being scanned |
| ReceiveScan.NoneAfterCompletion | apps/wallet/public/app.js:1228-1261 | once a scan of a wallet has completed no further scan of it starts, whatever else happens |
| ReceiveScan.TwoScansOfOneWallet | apps/wallet/public/app.js:1246 | from a new screen: the first wallet's scan fails late, and the next poll starts a second scan of the second wallet beside its first |
| ReceiveScan.Wallet.OnBatch | apps/wallet/public/app.js:1235-1270 | with addresses handed out, wallets switched or locked and other scans in between: a scan of a wallet no longer on screen changes nothing; a finished one sets the index one past its answer unless it is further by then, so the index never moves back |
| ReceiveScan.Wallet.OnFailure | apps/wallet/public/app.js:1245-1259 | an indexer error ends the scan, moves nothing, and clears the busy flag, whichever wallet that names |

## Left out

- FewestCoins: states optimality on coins of one type only, because it is false on a mix; MissesNothingIff and MixedCoinsAtTheHeavierPrice state what holds on any mix.
- PlannedSpendPaysItsWay: asks for a recipient script of 1 to 252 bytes, a 34-byte change script and at most 65535 inputs; PaysItsWayIff says what holds beyond the first bound. That an ECDSA item has at most 72 bytes is part of the type of signatures.
- MintReadsBack: takes the parsed height and tier as whole numbers; the source returns JavaScript numbers, exact for every height and tier that was itself one.
- SupplyIsBacked: speaks of transactions of these builders and of unmarked funding transactions, with amounts in push range and DigiDollar coins taken as the indexer reports them; it assumes of the DGB coins a step may spend that none is on the collateral key of a position in the ledger.
- LinearHistory: speaks of one life of the vault record and of mutations started in coherent tabs; UnlockAcrossRefreshLosesMnemonic and RevisionCheckIgnoresLives show why, and LinearIffNothingStale says for runs without either condition exactly when the history is linear.
- LinearIffNothingStale: takes it that a new vault's kdf block is none an earlier life stored, which 16 random bytes of salt make so.
- MigrationNeverLosesTheSeed: excludes removing the last wallet with the v1 seed, since a removal is meant to lose a mnemonic.
- MutationStores: speaks of what is stored and held; the values calls return, such as `existed` of `addWallet`, are not modelled, and a refusal is one outcome whatever its message.
- AdmittedIff: sets aside names the ledger object inherits, for which PayoutsAreSpaced and ProtoIsPaidTwice say what happens.
- BurstIsRejected: leaves open bursts that switch the version between 0 and non-zero, which change the checksum constant as well.
- ElectrumClient.OnData: takes what a line's JSON says (nothing, the id it answers, or null) as a function; what the process does with the throw is not modelled; whether the answer resolves or rejects its promise is not distinguished.
- PayoutsAreSpaced: counts recorded payouts; a payment whose answer never arrived is not one.
- ReceiveScan.Wallet.OnFailure: when the retry timer calls again is left open; a call may come at any time, also after malformed data, which the code does not retry by itself.
- Cryptography is symbolic or opaque: AES-GCM, PBKDF2, SHA-256, RIPEMD-160, Schnorr, ECDSA, taproot tweaks, and the byte layout of the BIP-143 and BIP-341 signature hashes.
- Script execution and consensus: a spent output must be the one the builder signed for, and that is all a step asks of the node.
- Letter case is ASCII in the vault's text comparisons and in addresses; an address character is its own code unit.
- Unknown JSON keys that the vault's spreads carry along, and `deleteAllRecords`, which ends every life at once.
- `BroadcastChannel` messages: a refresh may start at any time, which covers them.
- `getSource`, `findSource`, `getMnemonic`, `verifyPassword` and the keystore file format: reads without state.
- Legacy P2PKH and P2SH addresses and `decodeAddress`: version bytes looked up after the base58check decoder modelled here.
- Hex strings: scripts, keys and transactions are byte strings from the start.
- Floating point: node amounts are whole satoshis, and `effectiveRatioPercent` is not rounded through a double.
- The broadcast log's storage, BIP-21, price feeds, caching, rate limits, HTTP routing, timers and all of the user interface: input/output or much easier members.
