# Verification of cosmos-enoki

A Dafny model of the parts of cosmos-enoki that compute something: the preparation of a zero-height genesis, the
recursive message filter, the genesis builder for a validator set, upgrade registration, and the tables derived from
Go maps. `dafny verify dfyconfig.toml` checks it.

## Reading guide

**Zero-height export** (`app/export.go`). `Export.EnokiApp` holds the bank, distribution, staking and slashing stores
as fields, and its methods are the loops of `prepForZeroHeightGenesis`. Each method is proved equal to a function of
the old stores (`ZeroHeight`, `Resets`, `WholeRun`), and the theorems are about those functions.

| file | what is in it |
|---|---|
| `CoinMath` | multi-denomination amounts, decimal truncation, sums over stores |
| `Stores`, `Distribution` | the records, and the assumed keeper operations |
| `ZeroHeight` | the distribution phases as folds over lists |
| `Conservation`, `Payees`, `Payments` | what the module owes, the supply, who is paid and how much |
| `Stakes` | the token value of shares |
| `References` | exact reference counts of historical records, step by step |
| `Payout` | a consistent chain state; the payout loops complete |
| `Rebuilding` | closed form of the rebuilt distribution store |
| `Settlement`, `AfterExport` | closed form of a completed run; counts, withdrawals, second run |
| `Resets`, `WholeRun`, `Export` | staking and slashing passes; all phases together; the application object |
| `MsgFilter`, `GenesisBuilder`, `Upgrades`, `AppTables` | the four smaller parts |

The main results about the export, for every validator set, delegation list, reward rule and number of denominations:

- From a consistent state a run panics only if the library refuses to compute a reward or the allow list does not
  parse: no zero reference count is decremented, no subtraction goes negative, no payment bounces. From any
  distribution store the rebuild completes exactly when every delegation is to a validator that exists and has shares;
  had the validator loop skipped a delegated validator, it would panic.
- Every completed run leaves the distribution store in a closed form of the staking store and the pool. From a
  backed state the pool is exactly the coins of the module account: the scraps add up to whole coins.
- Every account gains, in every denomination, exactly the whole coins of the commissions and rewards withdrawn to it.
- Reference counts, wiped and rebuilt from nothing, are exact for every record and sum to validators plus delegations.
- After any completed run, exporting again changes no store. Withdrawals from the settled state, in any order, with
  repetitions and at any heights, fail only if the library refuses a reward, and pay nothing.

**Assumptions.** The keepers belong to cosmos-sdk (go.mod:34), whose code is not part of this model. The operations of
`Distribution` state what is assumed of them: commission withdrawal keeps the fraction and takes the floor from
outstanding rewards; ending a period moves one reference; a reference count of zero cannot drop and one above two
cannot grow; a validator without tokens gives its current rewards to the pool. The reward the library computes is a
parameter (`RewardRule`) about which nothing is assumed; it may also fail. It is clamped to the outstanding rewards.
Decimal amounts are integers scaled by 10^18. Addresses and denominations are abstract values with equality.

A run is said to complete when these phases do not panic; the validator set update of app/export.go:235 lies between
the staking and the slashing phases and is not modelled (see the end).

`Payout.Consistent` is what the chain guarantees between blocks: unique delegations to known validators that have
shares; a starting info for each; reference counts exact for each record; commission, and the current rewards of
a validator without tokens, still outstanding; nothing outstanding for unknown validators; the module account covers
what is owed. `Conservation.Backed` adds that it covers it exactly. Both hold again after a run.

**Findings.**

- The allow list is monotone only between non-empty lists, because the empty list jails nobody:
  `Resets.JailingIsMonotoneIff`.
- The genesis builder writes each validator's shares as one and one delegation of one per entry, so shares and
  delegations agree exactly when the addresses of the set are distinct: `GenesisBuilder.SharesAgreeIff`. It writes the
  auth section before it can fail, so a caller's map is changed even when an error is returned. With validators but no
  genesis accounts it panics on an index.

`Upgrades.NoopServesFirstVersionOnly` describes a hypothetical case: the list is a non-empty literal today
(app/upgrades.go:15-18), and all builds of one process share one version (app/app.go:319). Were the list empty and the
versions different, a later build would find no handler for its own version.

## Model

| member | source | states |
|---|---|---|
| Conservation.CommissionConserves | app/export.go:92 | From a solvent module, one commission withdrawal keeps in every denomination the gap between the module account and what is owed, keeps total supply, and debits no user, also when the discarded error occurs. |
| Conservation.RewardsConserve | app/export.go:113-115 | One reward withdrawal keeps the gap and the supply exactly, whatever reward the library computes; truncation loses nothing. |
| Conservation.PayCommissionsConserves | app/export.go:87-94 | Conservation after any number of iterations of the commission loop. |
| Conservation.PayRewardsConserves | app/export.go:105-116 | Conservation after any number of iterations of the reward loop, for any list of delegations. |
| Conservation.RebuildConserves | app/export.go:118-170 | Clearing, validator rebuild and delegation rebuild move amounts between outstanding rewards and the pool and keep their sum. |
| Conservation.SettleConserves | app/export.go:86-170 | The distribution phase as a whole keeps gap and supply in every denomination and debits no user. |
| Payees.SettlePaysOnlyRecipients | app/export.go:86-170 | No account changes except withdraw addresses of validators and delegators. |
| Payments.CommissionsPaid | app/export.go:86-97 | From a solvent module, for any list of distinct validators: each account gains exactly the whole coins of the listed commissions withdrawn to it, each listed validator keeps its dust and its outstanding rewards fall by what was paid, unlisted ones are unchanged. |
| Payments.RewardsPaid | app/export.go:105-116 | For any list of withdrawals each account gains exactly the whole coins of the rewards, the lesser of computed and outstanding at that step, withdrawn to it. |
| Payments.PeriodsAdvance | app/export.go:105-116 | Each validator's period rises by the number of withdrawals to it; delegations that are not listed keep their starting info. |
| Payments.LastWithdrawalStarts | app/export.go:105-116 | Each listed delegation ends with the height, stake and record of its last withdrawal. |
| Payments.SettlePays | app/export.go:86-170 | A completed distribution phase pays every account the commissions of all validators and the rewards of all delegations withdrawn to it, and no more. |
| References.PeriodKeepsCounts | app/export.go:161-164 | Ending a period never meets a zero count and leaves every record with exactly the references its holders justify. |
| References.DropKeepsCounts | app/export.go:113-115 | Dropping a delegation's start never meets a zero count and leaves the remaining counts exact. |
| References.StartKeepsCounts | app/export.go:166-169 | Starting a delegation at a fresh record stays under the limit of the count and leaves the counts exact. |
| Payout.CommissionsComplete | app/export.go:87-97 | The commission loop completes from a consistent state and leaves a consistent state after any prefix of it. |
| Payout.RewardStep | app/export.go:113-115 | One withdrawal always reaches the reward query, and fails if and only if the library refuses; otherwise counts stay exact and the module solvent. |
| Payout.RewardsComplete | app/export.go:100-116 | A list of withdrawals fails if and only if the library refuses some query; an internal panic is excluded. For any list, with repetitions, at any heights. |
| Rebuilding.ReinitValidatorsResult | app/export.go:125-148 | After the validator loop every listed validator has one record, period one and nothing outstanding or accumulated; other entries are kept. |
| Rebuilding.DelegationRebuilt | app/export.go:161-169 | Both hooks succeed on the closed form and extend it by one delegation. |
| Rebuilding.DelegationsRebuilt | app/export.go:154-170 | The delegation loop completes and yields the closed form, in any order of delegations. |
| Rebuilding.RebuildResult | app/export.go:118-170 | From any distribution store the rebuild completes if and only if every delegation is to a validator that exists and has shares; its result is the closed form with the pool of the validator loop. |
| Rebuilding.RebuildCompletesIff | app/export.go:124-170 | Had the validator loop visited only some validators, the delegation loop would complete if and only if every delegation is to one of those that has shares. |
| Settlement.SettleResult | app/export.go:86-170 | From a consistent state the distribution phase completes if and only if the library refuses no query; then the store is the closed form and the pool is what the module account holds less the gap at entry. |
| Settlement.CompletedForm | app/export.go:86-170 | Every completed distribution phase, from whatever state, leaves the closed form with some pool. |
| Settlement.SettledForm | app/export.go:125-148 | From a backed state the final pool equals the coins of the module account exactly, a whole number in every denomination, with nothing outstanding. |
| AfterExport.RebuiltTracked | app/export.go:118-170 | Counts are exact for the delegations rebuilt so far, after any number of iterations. |
| AfterExport.HistoryTotal | app/export.go:118-170 | The rebuilt reference counts sum to the number of validators plus the number of delegations. |
| AfterExport.SettledCounts | app/export.go:118-170 | With any pool: counts sum to validators plus delegations, every record has one or two references, and every delegation starts at height 0 at an existing record of a validator whose latest record exists. |
| AfterExport.StartsAtRank | app/export.go:153-170 | Each delegation starts at the record numbered by its rank among the delegations to its validator, with its token value as stake, at height 0. |
| Stakes.StakesWithinTokens | app/export.go:166-169 | Delegations that together hold no more than a validator's shares get stakes that together do not exceed its tokens. |
| Stakes.StakesSplit | app/export.go:166-169 | Splitting shares never raises their stake and costs at most the smallest unit. |
| Stakes.StakeIsProportional | app/export.go:166-169 | A stake is the truncated share of the tokens, and all shares are worth all tokens. |
| AfterExport.SettledConsistent | app/export.go:86-170 | The settled state is consistent again when the module covers the pool, and backed when it equals it. |
| AfterExport.CalmWithdrawal | app/export.go:113-115 | From a settled state one withdrawal at any height reaches the query, fails if and only if the library refuses, pays nothing and keeps all counts exact. |
| AfterExport.EveryoneCanWithdraw | app/export.go:153-170 | After any completed run any sequence of withdrawals at any heights completes if and only if the library answers, always for a total rule; it pays nothing, leaves bank and pool alone, and no delegation has accrued any ratio. |
| AfterExport.SettledIsFixed | app/export.go:86-170 | Every settled state, with any pool, is a fixed point of the distribution phase under any reward rule. |
| AfterExport.SecondRunChangesNothing | app/export.go:86-170 | After any completed run, from whatever state, a second distribution phase changes no coin and no record, and completes when the library answers. |
| Resets.ResetRedelegation | app/export.go:179-181 | Every entry of a redelegation gets creation height 0; count and all other fields stay. |
| Resets.ResetUnbonding | app/export.go:194-196 | Every entry of an unbonding delegation gets creation height 0; count and all other fields stay. |
| Resets.PassesReset | app/export.go:177-228 | The reset stores field by field: same keys and entry counts, all heights 0, jailed if and only if jailed before or omitted by a non-empty list, every other field and the delegations as before. |
| Resets.JailedExactly | app/export.go:67-82 | Jailed afterwards are those jailed before plus, for a non-empty list, all it omits; nobody is unjailed. |
| Resets.JailingIsMonotoneIff | app/export.go:219-222 | Enlarging an allow list never jails more validators if and only if it starts non-empty or stays empty. |
| Resets.ResetTwice | app/export.go:177-228 | A second pass over staking and slashing stores changes nothing. |
| WholeRun.ExportedStores | app/export.go:60-233 | After a completed run the list has parsed, staking and signing records are reset field by field, and bank and distribution stores are those of the distribution phase. |
| WholeRun.ExportedState | app/export.go:60-233 | A completed run from a consistent chain leaves the closed form, balanced books and a consistent chain; from a backed one the pool is the coins of the module account. |
| WholeRun.ExportCompletesIff | app/export.go:60-233 | With a library that computes every reward, only an allow list that does not parse stops these phases. |
| WholeRun.ExportTwice | app/export.go:60-233 | After any completed run, exporting again with the same allow list changes no store, and completes when the library answers. |
| Export.EnokiApp.ReadAllowList | app/export.go:67-82 | Ends the process if and only if some text does not parse; otherwise the map holds exactly the listed addresses. |
| Export.EnokiApp.WithdrawAllCommissions | app/export.go:86-97 | The loop computes the commission fold; from a solvent module the books balance after every iteration. |
| Export.EnokiApp.WithdrawAllRewards | app/export.go:105-116 | The loop computes the reward fold and conserves gap and supply after every iteration. |
| Export.EnokiApp.ReinitializeValidators | app/export.go:125-151 | The loop computes the validator fold and keeps what is owed. |
| Export.EnokiApp.ReinitializeDelegations | app/export.go:153-170 | The loop computes the delegation fold, panicking exactly when it does. |
| Export.EnokiApp.HandleDistribution | app/export.go:84-170 | All distribution phases in source order. |
| Export.EnokiApp.ResetRedelegations | app/export.go:177-190 | Rewriting the table while iterating zeroes every record once, under the same keys in the same order. |
| Export.EnokiApp.ResetUnbondings | app/export.go:192-205 | The same for unbonding delegations. |
| Export.EnokiApp.ResetAllValidators | app/export.go:207-228 | Reverse iteration with write-back visits every validator once: unbonding height 0, jailed if and only if jailed before or omitted by a non-empty list, all else untouched; the lookup never fails. |
| Export.EnokiApp.ResetAllSigningInfos | app/export.go:242-255 | Every signing info gets start height 0 and keeps all else. |
| Export.EnokiApp.PrepForZeroHeightGenesis | app/export.go:60-233 | The stores after the run are the specified ones; after every completed run all heights are 0, the allow list has decided who is jailed, every other staking and signing field is as before, and the distribution store has the closed form; a consistent chain stays consistent with balanced books. |
| Export.EnokiApp.ExportAppStateAndValidators | app/export.go:21-31 | Height 0 and prepared stores when asked for zero height, otherwise last height plus one and untouched stores. |
| MsgFilter.MsgFilterDecorator.HasDisallowedMessage | app/decorators/msg_filter_template.go:38-60 | The early-exit search answers true if and only if a message at some depth is blocked or is an exec that does not decode; it terminates. |
| MsgFilter.MsgFilterDecorator.AnteHandle | app/decorators/msg_filter_template.go:29-36 | Rejects with the height of the context, otherwise replies what the next handler replies. |
| MsgFilter.RejectedAnywhere | app/decorators/msg_filter_template.go:38-60 | A list is rejected if and only if one of its messages is, so visiting order does not matter. |
| MsgFilter.ChainedFilters | app/decorators/msg_filter_template.go:23-36 | Two filters in a row reply with the error at the height of the context if either list rejects, otherwise with what the next handler replies; so does one filter for both lists. |
| MsgFilter.UndecodableIsRejected | app/decorators/msg_filter_template.go:42-45 | Every filter rejects a list holding an exec that does not decode, at any depth. |
| MsgFilter.PlainIsRejectedIff | app/decorators/msg_filter_template.go:52-56 | A plain message is rejected if and only if a blocked message has its name; execs share one name. |
| MsgFilter.ExecIsRejectedIff | app/decorators/msg_filter_template.go:40-56 | A decoding exec is rejected if and only if its contents are or execs are blocked. |
| MsgFilter.StricterIff | app/decorators/msg_filter_template.go:52-56 | A filter rejects everything another rejects if and only if it blocks all the names the other blocks. |
| MsgFilter.LayerKeepsVerdict | app/decorators/msg_filter_template.go:40-50 | Adding an exec layer anywhere never turns a rejection into an acceptance. |
| MsgFilter.LayersInvisibleIff | app/decorators/msg_filter_template.go:38-60 | Layers never change a verdict if and only if exec messages are not blocked. |
| GenesisBuilder.BuildStaking | app/test_helpers.go:369-401 | Validators, bonded, unjailed, with 1,000,000 tokens and one share, and delegations of one share correspond to the set in order; fails if and only if a key does not convert or no account exists. |
| GenesisBuilder.BuildSigningInfos | app/test_helpers.go:407-413 | Signing infos correspond to the set in order. |
| GenesisBuilder.TotalSupply | app/test_helpers.go:423-427 | The supply is the sum of all balances in every denomination. |
| GenesisBuilder.GenesisStateWithValSet | app/test_helpers.go:356-434 | The sections agree with the set, the accounts, the balances and each other; other sections are untouched; on failure only the auth section is written. |
| GenesisBuilder.SupplyIsBalancesPlusBonded | app/test_helpers.go:417-427 | Supply is the given balances plus, in the bond denomination, the tokens of all validators. |
| GenesisBuilder.SharesAgreeIff | app/test_helpers.go:380-400 | Each validator's shares equal the delegations to it if and only if addresses are distinct. |
| Upgrades.UpgradingApp.RegisterUpgradeHandlers | app/upgrades.go:21-64 | No-op upgrade added to an empty list; handlers as written in order; first match for the loader, none at a skipped height; panic exactly on unreadable info; with distinct names the loaded stores and the registered handler belong to one upgrade. |
| Upgrades.UpgradingApp.SetHandlers | app/upgrades.go:36-46 | The loop leaves the handlers with one write per listed upgrade, in order. |
| Upgrades.LastWriteWins | app/upgrades.go:36-46 | Every listed name ends with the handler of the last upgrade of that name; other names keep theirs. |
| Upgrades.UpgradingApp.InstallLoader | app/upgrades.go:57-63 | The loader is the one of the first upgrade of the name read from disk, or unchanged if none has it. |
| Upgrades.FirstStopsAt | app/upgrades.go:57-63 | The loader lookup finds an upgrade that no earlier one shares its name with. |
| Upgrades.LastStopsAt | app/upgrades.go:36-46 | The last write of a name is by the upgrade that no later one shares its name with. |
| Upgrades.FirstIsLast | app/upgrades.go:36-63 | With distinct names the upgrade whose stores are loaded is the one whose handler is registered. |
| Upgrades.BuildsAddAtMostOne | app/upgrades.go:22-25 | Any number of builds adds the no-op upgrade at most once, and only to an empty list. |
| Upgrades.NoopServesFirstVersionOnly | app/upgrades.go:22-25 | From an empty list the last build finds a handler for its own version if and only if that is the first version. |
| AppTables.GetStoreKeys | app/app.go:1158-1167 | For every iteration order the result is a sorted arrangement of the keys of the map. |
| AppTables.PrefixIsLess | app/app.go:1163-1165 | In the order of names a proper prefix comes first. |
| AppTables.FirstDifferenceDecides | app/app.go:1163-1165 | In the order of names the smaller character at the first difference decides. |
| AppTables.SortedIsUnique | app/app.go:1163-1165 | Two sorted arrangements of the same keys are equal. |
| AppTables.StoreKeysAreDetermined | app/app.go:1158-1167 | Any two runs return the same list, without duplicates. |
| AppTables.GetMaccPerms | app/app.go:1234-1241 | The copy equals the permissions for every iteration order. |
| AppTables.BlockedAddresses | app/app.go:1244-1255 | Blocked are the module addresses without that of governance, for every iteration order. |

## Left out

- Export.EnokiApp.PrepForZeroHeightGenesis: does not model the validator set update of app/export.go:235-238, which may end the process and may change validators, pools and signing infos; nor the early return of lines 230-233 when the iterator does not close. What is stated about validators holds just before that update, and the signing-info pass holds for whatever table it leaves.
- WholeRun.ExportCompletesIff: speaks of the modelled phases only; app/export.go:235-238 may also end the process.
- WholeRun.ExportedState: describes the stores without the changes that app/export.go:235 may make.
- WholeRun.ExportTwice: both runs are without the update of app/export.go:235.
- Export.EnokiApp.ExportAppStateAndValidators: does not model the error returns of exporting, marshalling and validator writing (app/export.go:33-46), nor the consensus parameters: I/O.
- Reward amounts and slashing inside reward withdrawal: not decided by this repository; the rule is a parameter.
- Keeper operations are functions on store values rather than objects with methods, since they are assumptions about a library; aliasing between keepers is not modelled.
- Store and codec errors that only panic (app/export.go:95-97, 182-185): I/O.
- Bech32 text: an allow-list entry is an address or does not parse; alternative spellings of one address are not modelled.
- Machine integers: periods, counts and amounts are unbounded, so overflow of 64-bit periods is not modelled.
- Blocked recipients: a withdraw address is assumed able to receive coins.
- Library sort: `AppTables.SortByName` stands for it; only its being sorted and a permutation is used.
- A bonded pool of zero coins is an empty amount, while the source writes a coin of amount zero; unsorted coin lists, on which the library panics, do not exist in the model.
- `addTestAddrs` and `initAccountWithCoins`: each mints and sends the same coins through the bank keeper, so what they conserve is decided by that library.
- `NewEnokiApp` wiring, module order lists, ante and post handler lists, IBC middleware, fee market, rate limits, token factory, wasm, upgrade migrations, commands, scripts and interchain tests: configuration or code defined elsewhere.
