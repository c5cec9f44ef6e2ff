# Account credentials, calendar arithmetic and codecs of the E-Tipitaka web application

This project models the parts of the application whose correctness depends on what happens between requests, or on
arithmetic that is easy to get wrong by one, and proves what they promise.

## The account-credential protocol

`Accounts.dfy` is a transition system for the transactions of `app/user_data`: token revocation, the OAuth validator
hooks, passkey signup, password signup, passkey registration, recovery, passkey deletion, password removal, password
reset and assertion. Any number of them run at once. Each is a program of database statements over committed rows; a
statement that needs an advisory, row or unique-index lock waits for every conflicting holder, its own writes stay
private until it commits, all its locks go at once when it ends, and it may be aborted at any point. Reads see what was
committed before the statement started (READ COMMITTED). `Locks.dfy` holds the lock modes and `Options.dfy` the option
and result types.

- `Deadlock.dfy`: locks last until the end, no reachable state has a cycle of waiting transactions, and some open
  transaction can always go on.
- `Credentials.dfy`: nobody is locked out, and no two accounts share an address or a username. `SignupProgress.dfy`:
  signups that only share a lock key can both commit.
- `AccountHistory.dfy`: each commit changes exactly its own rows, so the tables are the commit log replayed.
- `Epochs.dfy`: the passkey epoch counts every change exactly, so a reset link is spent by exactly those changes; the
  passkey cap.
- `RecoveryRuns.dfy`: what a recovery can leave behind, among all other transactions.
- `AccountService.dfy`: the same functions as imperative code over a mutable database, tied to the statement programs,
  and exactly when each succeeds and what it then changes. `SoloRuns.dfy`: such a call is a run of the system.
- `OAuthHooks.dfy`: whose keys the validator hooks take, in ascending order.
- `Pairings.dfy`, `PairingRuns.dfy`, `TokenSweep.dfy`, `TokenHistory.dfy`, `PairingTheorems.dfy`, `PairingService.dfy`:
  desktop pairings and DRF tokens as a second transition system, where `redeem`, `revoke_all_tokens` and the purge in
  `begin` run statement by statement, and a delete of many rows takes them one at a time.
- `PairingHistory.dfy`: how a pairing comes, changes and goes, and what a delete of many rows has taken when it commits.
- `OnePass.dfy`: exactly when a single revocation is outlived by a key. `PairingDeadlocks.dfy`, over the graph facts of
  `Rings.dfy`: exactly when these transactions deadlock.
- `Challenges.dfy`: single-use ceremony challenges. `SignCounts.dfy`: the signature counter under racing assertions.

A run is a sequence of states joined by enabled actions from a quiet state: no open transaction, and committed rows that
already satisfy the property being kept. The empty database is one.

## Calendar, durations, and smaller cores

- `Calendar.dfy`: moment's locale weeks and their inverse over the proleptic Gregorian calendar.
- `Durations.dfy`: moment's duration bubbling with truncating division.
- `PasskeyNames.dfy`: the passkey-name sanitiser. `Base64Url.dfy`: the browser's base64url codec, and `Base64Bits.dfy`:
  the codec bit by bit.
- `Verifier.dfy`: the MCP server's token cache. `Lessdoc.dfy`: Bootstrap's Less docstring parser.

## Where the code and its documentation disagree

- `app/user_data/passkey_service.py:860-862` says a reset link's signature covers the newest passkey's primary key. The
  code covers the per-user epoch counter (`app/user_data/recovery.py:104-106`), and the model follows the code.
- `app/user_data/account_tokens.py:276-279` says the place of the pairing delete among the others is immaterial. For
  deadlocks it is not: a poll holds its pairing and then waits for the token row, a revocation holds the token row and
  then waits for the pairing. `Deadlock.NoDeadlock` is therefore about the other rows, and `PairingDeadlocks` says
  exactly when these do deadlock. There are two ways, and both are reached by runs. A poll and a revocation cross,
  which takes a token committed between the poll's look-up and the revocation's token delete. Or the purge in `begin`
  (`app/user_data/desktop_pairing.py:80`), midway through several expired rows, meets another delete of many rows.

## What one revocation guarantees

The module docstring of `account_tokens.py` asks callers to revoke a second time after they commit. With the sweep,
no key redeemed for an earlier approval survives (`PairingTheorems.SweepLeavesNoEarlierKey`). After a password reset
whose retried revocation failed (`app/user_data/recovery.py:164-179`) there is one pass only. `OnePass` settles that
case: if the pass found a token to delete, nothing it covers survives; if it found none, exactly the keys committed
after its token delete, with no logout since, do.

## What is abstracted

- The toolkit code behind `super()` in the validator hooks: it may touch any OAuth row of the owners whose keys are
  held, in any order, and then take a share lock on an owner's user row before it commits. A hook that found no owner
  touches nothing.
- Case folding, NFKC, SQL `iexact`, SHA-256 as a lock key, the Unicode tables and the signature scheme are
  uninterpreted: a fold, a symmetric relation, an arbitrary key function, predicates on code points. A signature is
  identified with the text it covers. Only the verifier theorem takes digests of distinct tokens to be distinct.
- Passkeys are keyed by their unique credential id, and a delete of a row that has gone is allowed to go on.
- Clocks, random codes, new keys, faults and the results of WebAuthn verification are inputs of each step.
- A transaction waits only for lock holders, not for earlier waiters in a queue.
- The two systems are kept apart. A token insert and an approval also take a share lock on the user row, but no
  transaction that locks user rows waits for a token or a pairing, so no ring of waits joins the two.

## Model

| member | source | states |
|---|---|---|
| `Deadlock.RunsAreLockSafe` | app/user_data/account_tokens.py:109-185 | In every state of every run no two open transactions hold conflicting locks, and every token writer holds only rows of owners whose advisory key it has |
| `Deadlock.HeldUntilTheEnd` | app/user_data/account_tokens.py:109-185 | Strict two-phase locking: a lock granted at one step of a run is held in every later state until its transaction commits or aborts |
| `Deadlock.RevokesUnderOwnersKey` | app/user_data/account_tokens.py:281-301 | Every committed revocation holds the advisory key of the user whose tokens it deletes |
| `Deadlock.OAuthRowsAreNeverWaitedFor` | app/user_data/account_tokens.py:109-185 | Per-user serialisation: under the owner's key an OAuth row is always free, so nobody ever waits for one |
| `Deadlock.BlockerWaitsHigher` | app/user_data/oauth_validators.py:148-152 | A transaction that blocks another and itself waits, waits strictly later in one global order: email key, token keys by ascending user, user row, credential |
| `Deadlock.NoDeadlock` | app/user_data/account_tokens.py:109-185 | No reachable state of any number of revocations, hooks, signups, registrations, recoveries, deletions, password removals, resets and assertions has a wait-for cycle |
| `Deadlock.SomeoneCanProceed` | app/user_data/account_tokens.py:109-185 | Whenever transactions are open, at least one of them waits for no lock or can be granted the one it wants |
| `Credentials.CommitStaysInItsLocks` | app/user_data/passkey_service.py:289-303 | A commit changes an account only under that account's row lock and a credential only under that credential's lock |
| `Credentials.CompatibleCommitsDoNotDisturb` | app/user_data/passkey_manage.py:116-126 | What an open transaction read under its locks is unchanged by any commit the locks allow beside it |
| `Credentials.RunsAreSound` | app/user_data/passkey_service.py:698-710 | Every run keeps foreign keys, sign-in for every account, distinct addresses and usernames, and each open transaction's checked facts, such as a signup's free username while it holds the index entry |
| `Credentials.NoLockout` | app/user_data/passkey_manage.py:116-151 | In every state of every run each account has a usable password or a passkey, also when a delete races a password removal |
| `Credentials.OneAccountPerUsername` | app/user_data/passkey_service.py:694-712 | From distinct usernames, in every state of every run no two accounts have the same username |
| `Credentials.OneAccountPerAddress` | app/user_data/serializers.py:126-136 | No interleaving of passkey and password signups commits two accounts whose addresses are taken to be the same |
| `SignupProgress.CollidingKeysRefuseNobody` | app/user_data/account_tokens.py:188-260 | From any reachable state with two open signups whose lock keys collide, unrelated to each other and to every account, a continuation commits both accounts |
| `SignupProgress.FinishSignup` | app/user_data/passkey_service.py:694-713 | A signup whose address, name, id and credential nobody has, and whose remaining locks nobody holds, reaches its commit from any stage, adding exactly its account |
| `Credentials.RelatedSignupsAreSerialised` | app/user_data/account_tokens.py:188-260 | Two signups for related addresses are never both past their lock |
| `AccountHistory.CommitsDoExactly` | app/user_data/passkey_manage.py:116-151 | In every run a commit changes exactly the rows of its operation, the epoch included, and is logged as that operation: a delete removes just that passkey, a password removal just that flag |
| `AccountHistory.TablesAreTheLog` | app/user_data/passkey_service.py:289-303 | In every state of every run the passkey table is the first one with the log's adds and deletes replayed, and the accounts are the first ones with its signups and password changes replayed |
| `Epochs.EpochCountsChanges` | app/user_data/passkey_service.py:308-342 | In every run the stored epoch has moved by exactly the number of committed passkey adds and deletes of that user |
| `Epochs.DecimalReadsBack` | app/user_data/recovery.py:104-106 | The decimal text of an epoch reads back as that number and contains no colon |
| `Epochs.HashValueIsInjective` | app/user_data/recovery.py:104-106 | The colon-joined hash input determines both Django's own part and the epoch |
| `Epochs.ResetTokenSpentByPasskeyChange` | app/user_data/recovery.py:79-106 | A reset token verifies later if and only if its other inputs are unchanged and no passkey of the user was added or deleted in between; adding then deleting does not revive it |
| `Epochs.CommitCount` | app/user_data/passkey_service.py:289-303 | A commit adds at most one passkey to one account, and past the cap only for a recovery |
| `Epochs.PasskeyCap` | app/user_data/passkey_service.py:289-303 | Under any interleaving an account has at most 20 passkeys plus one for each of its recovery adds |
| `RecoveryRuns.RunsKeepRecoveries` | app/user_data/passkey_service.py:737-760 | Every recovery's phase agrees with its logged commits, it has one transaction open at a time, and no phase exceeds five attempts |
| `RecoveryRuns.RecoveriesMoveByAttempts` | app/user_data/passkey_service.py:737-760 | A recovery changes only when one of its own attempts begins, commits or aborts; a commit moves it on, a retryable failure within five attempts sends it back, any other stops it, and the sweep stops it either way |
| `RecoveryRuns.RecoveryOutcomes` | app/user_data/passkey_service.py:887-905 | A stopped recovery has committed nothing, its revocation alone, or its revocation and exactly one passkey |
| `RecoveryRuns.NoStoreBeforeRevocation` | app/user_data/passkey_service.py:887-905 | A recovery passkey is stored only after the same recovery's revocation of the same account's tokens has committed |
| `AccountService.RetryStopsAtFirstOther` | app/user_data/passkey_service.py:737-760 | The retry loop stops at the first attempt that is not a deadlock or serialization failure, at the latest the fifth, and commits exactly when that attempt is clean |
| `AccountService.StoredExactlyOnePasskey` | app/user_data/passkey_service.py:289-303 | A passkey is stored exactly when the account exists, the credential is new and, for a registration, fewer than 20 are there; then one row is added, the epoch moves by one and nothing else changes |
| `AccountService.DeletedExactlyOnePasskey` | app/user_data/passkey_manage.py:116-126 | A deletion succeeds exactly when the account owns the passkey and has a usable password or another one; then that passkey is gone, the epoch has moved by one and nothing else has changed |
| `AccountService.RemovedExactlyThePassword` | app/user_data/passkey_manage.py:145-151 | A password is removed exactly when it is usable and the account has a passkey, and nothing else changes |
| `AccountService.SignedUpWithPasskey` | app/user_data/passkey_service.py:694-713 | A passkey signup succeeds exactly when no account has its address, username or id and nobody its credential, and adds the account without a usable password and with that one passkey |
| `AccountService.SignedUpWithPassword` | app/user_data/serializers.py:126-136 | A password signup succeeds exactly when no account has its address, username or id, and adds just that account |
| `SoloRuns.SoloCallIsARun` | app/user_data/passkey_manage.py:116-126 | Whatever such a call commits with nobody else about, the transition system reaches from the same tables |
| `SoloRuns.SoloRevocationIsARun` | app/user_data/account_tokens.py:281-301 | A revocation with nobody else about takes its user's key, can delete any of the user's OAuth rows, and commits |
| `AccountService.Database.BumpPasskeyEpoch` | app/user_data/passkey_service.py:336-342 | A missing epoch row counts as zero; the user's epoch grows by one and nothing else changes |
| `AccountService.Database.StorePasskey` | app/user_data/passkey_service.py:261-303 | The imperative store commits exactly what the statement program run alone commits, and says which error otherwise |
| `AccountService.Database.DeletePasskey` | app/user_data/passkey_manage.py:99-127 | The same for deletion: just the passkey gone and the epoch one higher, or not found, the lockout guard on the last passkey, or no such user |
| `AccountService.Database.RemovePassword` | app/user_data/passkey_manage.py:130-153 | The same for password removal, where a wrong password rolls back |
| `AccountService.Database.RevokeAllTokens` | app/user_data/account_tokens.py:281-301 | The user's credentials of all six kinds are gone and nobody else's are |
| `AccountService.Database.DeleteUserSessions` | app/user_data/account_tokens.py:329-380 | Scan and chunked delete remove exactly the sessions of the user that have not expired, other than the kept one |
| `AccountService.Database.RevokeWithRetry` | app/user_data/passkey_service.py:737-760 | The loop for transaction A: its attempt count and whether it commits are those of the retry rule, and it changes nothing unless it commits |
| `AccountService.Database.StoreWithRetry` | app/user_data/passkey_service.py:893-899 | The loop for transaction B: passkey and session deletion both happen or neither does |
| `AccountService.Database.FinishRecover` | app/user_data/passkey_service.py:887-905 | For every pair of fault sequences the whole database ends in one of three stated states, each phase within five attempts |
| `AccountService.Database.CompletePasswordReset` | app/user_data/recovery.py:142-256 | The account's password is usable whatever faults occur, and the tokens are gone if either the retried revocation or the sweep succeeds |
| `OAuthHooks.Transaction.Open` | app/user_data/oauth_validators.py:57-152 | Each hook takes exactly the keys of the owners its lookups found, ascending |
| `OAuthHooks.Transaction.LockOwners` | app/user_data/oauth_validators.py:149-152 | The loop over sorted owners takes each key once, least first |
| `OAuthHooks.SortedAscends` | app/user_data/oauth_validators.py:149-152 | The sorted owners are strictly ascending |
| `OAuthHooks.HooksOpenFresh` | app/user_data/oauth_validators.py:57-152 | What a hook opens is a transaction the lock order admits, over exactly the owners found |
| `OAuthHooks.HooksNeverCross` | app/user_data/oauth_validators.py:117-152 | No two hooks take two shared keys in opposite orders |
| `PairingTheorems.OneAnswerPerDevice` | app/user_data/desktop_pairing.py:137-182 | In any run at most one poll of a device code is told approved or denied |
| `PairingTheorems.ApprovedAnswerNamesApprover` | app/user_data/desktop_pairing.py:112-182 | An approved answer comes before expiry and names the user of the one earlier approval, that pairing's only decision |
| `PairingTheorems.DecisionIsFinal` | app/user_data/desktop_pairing.py:112-134 | A decided pairing never changes status or user again |
| `PairingHistory.PairingsStay` | app/user_data/desktop_pairing.py:162-182 | In every run a pairing stays, with its code and expiry, until a step that answers its poll with its decision, commits a purge after its expiry, or commits a revocation of its user |
| `PairingHistory.PairingsComePending` | app/user_data/desktop_pairing.py:73-98 | A pairing comes only as a pending one, under a device code never in the table before and a pairing code no other has |
| `PairingHistory.ChangesAreDecisions` | app/user_data/desktop_pairing.py:112-134 | A pairing that stays changes only by an approval or denial, applied while it is pending |
| `PairingHistory.PurgeTakesTheExpired` | app/user_data/desktop_pairing.py:80 | A purge that commits leaves none of the pairings that had expired when it began |
| `PairingHistory.RevocationTakesTheUsers` | app/user_data/account_tokens.py:281-301 | A revocation that commits leaves none of the pairings its user had when its pairing delete began |
| `TokenSweep.RunsKeepTokens` | app/user_data/desktop_pairing.py:162-182 | Every run keeps row and token locks exclusive, keys private until committed, decisions final, and sweeps clean |
| `TokenSweep.CoveredAnswerIsForPassUser` | app/user_data/account_tokens.py:281-301 | An answer about a pairing a revocation covers names the user of that revocation |
| `PairingTheorems.SweepLeavesNoEarlierKey` | app/user_data/passkey_service.py:898-903 | After a revocation and its sweep have committed, no key redeemed for a pairing approved before the first one's pairing delete is a token, under every interleaving |
| `PairingTheorems.OnePassIsNotEnough` | app/user_data/account_tokens.py:281-301 | A run in which one revocation commits and such a key survives it |
| `OnePass.OnePassWithTokenSuffices` | app/user_data/account_tokens.py:281-301 | In any later state of any run, a committed revocation whose token delete found a token has left none of the keys handed out for the pairings it covers |
| `OnePass.OnePassExactly` | app/user_data/account_tokens.py:281-301 | When a revocation commits, a key handed out for a covered pairing is still a token if and only if its token delete found none and the key was committed after it, with no logout since |
| `OnePass.SurvivorsAreThose` | app/user_data/recovery.py:164-179 | A covered key that is a token in any later state, with no second pass, got there in exactly that way |
| `OnePass.GoneForGood` | app/user_data/desktop_pairing.py:162-182 | A redeemed key that has stopped being a token never becomes one again |
| `TokenHistory.RunsHoldTokens` | app/user_data/desktop_pairing.py:178-180 | In every run a token row deleted but not committed is still there and held, and one inserted but not committed is not there yet |
| `TokenHistory.TokensComeAndGo` | app/user_data/desktop_pairing.py:178-180 | In every run a user's token comes by a login or by the commit of a poll that answers with it, keeps its key, and goes by a logout or the commit of a revocation of that user |
| `PairingDeadlocks.DeadlockedExactly` | app/user_data/account_tokens.py:276-301 | In every run there is a ring of waiting transactions if and only if a poll and a revocation are crossed or deletes of many rows stand behind one another in a ring |
| `PairingDeadlocks.OnlyCrossedWithoutPurges` | app/user_data/desktop_pairing.py:73-80 | While no purge has deleted one row and still wants another, the transactions are deadlocked if and only if a poll and a revocation are crossed |
| `PairingDeadlocks.QueueNeedsTwoExpired` | app/user_data/desktop_pairing.py:73-80 | Every ring of deletes has a purge in it that found two expired rows, has one and wants the other |
| `PairingDeadlocks.CrossedNeedsTokenBetween` | app/user_data/desktop_pairing.py:162-182 | In every run a crossed pair takes a token of that user committed after the poll looked for one and before the revocation deleted it |
| `PairingDeadlocks.CrossedExactly` | app/user_data/account_tokens.py:281-301 | A poll short of a token and a revocation of its user are crossed if and only if the user had a token at the token delete and the pairing was approved before the pairing delete |
| `PairingDeadlocks.RingStays` | app/user_data/desktop_pairing.py:162-182 | A ring of waits in one state of a run is still there in every later state, unless one of its members was aborted in between |
| `PairingDeadlocks.CrossedPairHappens` | app/user_data/desktop_pairing.py:162-182 | A crossed pair is reachable: the user logs in after the poll looked |
| `PairingDeadlocks.PurgeRingHappens` | app/user_data/desktop_pairing.py:73-80 | A purge and a revocation deadlocked over one user's two expired pairings are reachable, with no poll |
| `PairingService.PairingTable.Begin` | app/user_data/desktop_pairing.py:73-98 | Exactly the expired rows go, and the pairing is created, pending, under the first of five drawn codes that no unexpired one has, or refused exactly when there is none |
| `PairingService.PairingTable.FindPending` | app/user_data/desktop_pairing.py:101-109 | Finds the live undecided pairing with this code if there is one, and it is the only one with the code |
| `PairingService.PairingTable.Approve` | app/user_data/desktop_pairing.py:112-125 | Applies only to a still pending row and reports whether it did |
| `PairingService.PairingTable.Deny` | app/user_data/desktop_pairing.py:128-134 | Applies only to a still pending row and reports whether it did |
| `PairingService.PairingTable.Redeem` | app/user_data/desktop_pairing.py:137-182 | A live pending row: nothing changes; a denied one: told once and gone; an approved one: gone, with the user's existing key or the new key stored for exactly that user; none or an expired one: an error and no change |
| `PairingService.PollMatchesTransaction` | app/user_data/desktop_pairing.py:162-182 | The statement-level poll run alone gives the one-call poll's answer, rows and tokens, and is refused exactly when that raises |
| `Challenges.RunsAreSound` | app/user_data/passkey_challenges.py:33-54 | Every run keeps each challenge in at most one request's hands and out of the table once burned |
| `Challenges.SuccessesAreSingleUse` | app/user_data/passkey_service.py:417-431 | Successful ceremonies map one-to-one to challenges created for the same purpose and user and not yet expired |
| `Challenges.NoChallengeBurnedTwice` | app/user_data/passkey_challenges.py:33-54 | No challenge is consumed twice, whether or not verification then succeeds |
| `Challenges.ConsumeMatchesRun` | app/user_data/passkey_challenges.py:33-54 | With nobody in its way a request gets exactly a live challenge of its purpose, burns it, and succeeds only for the user it was issued to |
| `Challenges.ChallengeTable.Create` | app/user_data/passkey_challenges.py:24-30 | Expired rows go and the new one is stored, others untouched |
| `Challenges.ChallengeTable.Consume` | app/user_data/passkey_challenges.py:33-54 | A live challenge of the purpose is gone afterwards even when it was another user's; otherwise nothing changes |
| `SignCounts.CountIsGreatest` | app/user_data/passkey_service.py:569-600 | Under any interleaving the stored counter is the greatest of its initial value and all accepted ones (section 7.2 of W3C WebAuthn Level 2) |
| `SignCounts.UpdateIsFresh` | app/user_data/passkey_service.py:569-600 | Every accepted assertion proved a count above the one stored when it looked, or both were zero |
| `SignCounts.CountNeverDecreases` | app/user_data/passkey_service.py:569-600 | The stored counter never goes back |
| `SignCounts.ReturnedCountIsStored` | app/user_data/passkey_service.py:569-600 | The returned passkey's counter is never above the stored one |
| `PasskeyNames.CleanNameIsPresentable` | app/user_data/passkey_service.py:116-137 | At most 100 code points, no stripped category, single interior spaces, none at the ends, and empty or something visible |
| `PasskeyNames.CleanNameIsOnePass` | app/user_data/passkey_service.py:116-137 | The split, join and filter passes amount to one pass over the text, cut at 100 characters less a space at the cut, and the result is empty exactly when that shows nothing |
| `PasskeyNames.CleanNameFixesExactlyPresentable` | app/user_data/passkey_service.py:116-137 | A text is left as it is if and only if it already has that form |
| `PasskeyNames.CleanNameIsIdempotent` | app/user_data/passkey_service.py:116-137 | Cleaning twice is cleaning once, on every string |
| `PasskeyNames.CleanNameKeepsInk` | app/user_data/passkey_service.py:116-137 | Apart from spaces a cleaned name is a prefix of the allowed characters in order, and all of them if and only if the collapsed text is within 100 characters |
| `Verifier.DjangoTokenVerifier.LookUp` | mcp_server/etipitaka_mcp/verifier.py:31-36 | A hit is what the server reported for that digest less than a minute ago, and there is a hit exactly when an unexpired entry is kept |
| `Verifier.DjangoTokenVerifier.Finish` | mcp_server/etipitaka_mcp/verifier.py:67-70 | An accepted answer is remembered until a minute after the question, after clearing a full cache; a rejected one is not |
| `Verifier.CallsMatchVerifier` | mcp_server/etipitaka_mcp/verifier.py:31-36 | A call of a run answers from the cache exactly on an unexpired entry, and otherwise asks the server |
| `Verifier.RevocationTakesEffectWithinTtl` | mcp_server/etipitaka_mcp/verifier.py:31-70 | With any number of interleaved calls a token revoked at r is rejected by every call from r + 60 seconds on, and a hit is what the server said of that very token |
| `Verifier.CacheIsBounded` | mcp_server/etipitaka_mcp/verifier.py:31-70 | The cache never holds more than 512 entries |
| `Verifier.RevocationCanTakeThatLong` | mcp_server/etipitaka_mcp/verifier.py:31-70 | For every delay under 60 seconds a run accepts the revoked token that late: the bound is exact |
| `Lessdoc.Tokenizer.Shift` | app/assets/bootstrap/grunt/bs-lessdoc-parser.js:91-141 | Returns the next token, skipping unmatched lines, and always leaves room to push one back |
| `Lessdoc.Tokenizer.Unshift` | app/assets/bootstrap/grunt/bs-lessdoc-parser.js:84-89 | Throws exactly when a token is already pushed back, otherwise puts the token first |
| `Lessdoc.Parser.ParseFile` | app/assets/bootstrap/grunt/bs-lessdoc-parser.js:147-159 | Terminates on every input, never reaches the two internal exceptions, and computes the grammar without pushback |
| `Lessdoc.Parser.ParseSection` | app/assets/bootstrap/grunt/bs-lessdoc-parser.js:161-178 | A section, the end of the file, or the token found in place of a heading |
| `Lessdoc.Parser.ParseSubSections` | app/assets/bootstrap/grunt/bs-lessdoc-parser.js:180-199 | All subsections of a section, the first perhaps unnamed, a lone empty one dropped |
| `Lessdoc.Parser.ParseVar` | app/assets/bootstrap/grunt/bs-lessdoc-parser.js:221-234 | A variable with its docstring, or none, and exactly the tokens that leaves |
| `Lessdoc.AcceptedExactlyWellPlaced` | app/assets/bootstrap/grunt/bs-lessdoc-parser.js:147-234 | Which token sequences are accepted, as an if and only if, and that the error names the first misplaced token |
| `Lessdoc.ResultKeepsEveryTracedToken` | app/assets/bootstrap/grunt/bs-lessdoc-parser.js:147-234 | Writing the result back out gives every input token in order, except variable docstrings with no variable and unnamed subsection headings right after a section heading |
| `Lessdoc.BodyShape` | app/assets/bootstrap/grunt/bs-lessdoc-parser.js:180-199 | Only a body that does not start with a subsection heading gets an unnamed first subsection, and no section is left with just an empty one |
| `Base64Url.BufferToB64url` | app/assets/passkey.js:28-33 | The loop and replacements compute the encoding of the array's bytes |
| `Base64Url.B64urlToBuffer` | app/assets/passkey.js:20-26 | Fails exactly where the decoding does, else a new array of the decoded bytes |
| `Base64Url.EncodeIsUrlSymbols` | app/assets/passkey.js:28-33 | Encoding gives one symbol of the URL-safe alphabet for each sextet and no padding (sections 4 and 5 of RFC 4648) |
| `Base64Url.PaddingCompletes` | app/assets/passkey.js:22 | The padding slice supplies exactly what each length lacks, for all four residues |
| `Base64Url.AtobUndoesBtoa` | app/assets/passkey.js:20-33 | The reference encoding of section 4 of RFC 4648 fills groups of four and is undone by the reference decoding |
| `Base64Url.RoundTrip` | app/assets/passkey.js:20-33 | Every byte sequence survives encoding and decoding; the encoding is unpadded, URL-safe and of the stated length |
| `Base64Url.ReEncodesExactlyCanonical` | app/assets/passkey.js:20-33 | A string survives decoding and encoding if and only if it is canonical: URL-safe symbols, no lone symbol, no stray bits |
| `Base64Bits.EncodeIsBits` | app/assets/passkey.js:28-33 | The encoding's symbols are the alphabet's letters for the bytes' bits taken six at a time, filled up with zeros (sections 4 and 5 of RFC 4648) |
| `Base64Bits.DecodesExactly` | app/assets/passkey.js:20-26 | A string decodes if and only if it is symbols of either alphabet, their number not one more than a multiple of four, with none, some or all of their padding |
| `Base64Bits.DecodeIsBits` | app/assets/passkey.js:20-26 | The bytes are the whole octets of the symbols' bits, in order, three for every four symbols |
| `Calendar.YearsAdjoin` | app/assets/moment/moment.js:890-896 | The leap-year rule and the day numbering agree: each year starts where the one before ends |
| `Calendar.Carry` | app/assets/moment/moment.js:940-959 | Date arithmetic lands on a valid date with the same day number |
| `Calendar.DatesAreDistinct` | app/assets/moment/moment.js:890-896 | Each day number is one date of one year |
| `Calendar.WeekdaysAreFixed` | app/assets/moment/moment.js:890-896 | January 1st 1970 is a Thursday, the next day has the next weekday, and years have the Gregorian lengths, so every date has its real weekday |
| `Calendar.FourCenturies` | app/assets/moment/moment.js:890-896 | 400 years are 146097 days, a whole number of weeks |
| `Calendar.WeekOfYear` | app/assets/moment/moment.js:940-959 | The adjustments by seven find the deciding day of the date's week, whose year and week of year are the result |
| `Calendar.LocaleWeeks` | app/assets/moment/moment.js:940-1023 | In every locale week 1 is the week of the year's first day with weekday doy, weeks run from dow to dow + 6, and later weeks follow every seven days |
| `Calendar.DayOfYearFromWeeks` | app/assets/moment/moment.js:1009-1023 | The result denotes the given weekday of the given week, counted in the year, or in the year before when not positive |
| `Calendar.WeeksInYear` | app/assets/moment/moment.js:2141-2143 | The number of weeks, read off the last counted day of December |
| `Calendar.WeekRoundTrip` | app/assets/moment/moment.js:940-1023 | For every date and locale the week and weekday denote the same day again, with the week in 1..53 |
| `Calendar.DayRoundTrip` | app/assets/moment/moment.js:940-1023 | A week number and weekday come back from the day they denote if and only if the year has that week |
| `Calendar.WeeksFillYear` | app/assets/moment/moment.js:2141-2143 | weeksInYear is exactly the distance to the next year's first week |
| `Calendar.LongYears` | app/assets/moment/moment.js:2141-2143 | A year has 53 weeks if and only if its deciding weekday is January 1st, or the 2nd of a leap year; otherwise 52 |
| `Calendar.IsoWeeks` | app/assets/moment/moment.js:940-959 | With dow 1 and doy 4, week 1 holds the first Thursday and runs Monday to Sunday (section 4.1.4 of ISO 8601:2004) |
| `Durations.Duration.constructor` | app/assets/moment/moment.js:1443-1476 | Combines the nine units into three totals and bubbles them |
| `Durations.Duration.Bubble` | app/assets/moment/moment.js:2862-2907 | The in-place carries compute the normal form of the totals, which stay as they are |
| `Durations.Duration.AddSubtract` | app/assets/moment/moment.js:2834-2842 | The totals move by the other's, and the fields follow |
| `Durations.Duration.AddThenSubtract` | app/assets/moment/moment.js:2844-2852 | Adding and then subtracting the same duration restores totals and fields |
| `Durations.BubbleIsNormal` | app/assets/moment/moment.js:2862-2907 | For every duration the fields have one sign and are below 1000, 60, 60, 24, 12, with at most 30 days |
| `Durations.BubbleConserves` | app/assets/moment/moment.js:2862-2907 | Milliseconds, days and months are conserved exactly: the k months moved out of the days are the most with 146097 k at most 4800 times the days, and the days they take are the fewest that reach them |
| `Durations.DaysInIsLeast` | app/assets/moment/moment.js:2909-2918 | The days for m months are the least n with 4800 n at least 146097 m, mirrored below zero |
| `Durations.MonthsInIsGreatest` | app/assets/moment/moment.js:2909-2918 | The months in d days are the greatest m with 146097 m at most 4800 d, mirrored below zero |
| `Durations.CollapseIsOutward` | app/assets/moment/moment.js:2870-2877 | Mixed signs are turned into milliseconds, rounding the days and months away from zero by less than a day |
| `Durations.FewDaysRemain` | app/assets/moment/moment.js:2896-2918 | Taking out the whole months leaves at most 30 days of the same sign |
| `Durations.FixedExactlyNormal` | app/assets/moment/moment.js:1443-1476 | A duration built from fields shows those fields if and only if they are a normal form |
| `Durations.NormalFormIsUnique` | app/assets/moment/moment.js:2862-2907 | Normal fields with the totals of a bubbled duration are that duration's fields |
| `Durations.BubbleMirrors` | app/assets/moment/moment.js:2854-2907 | Negating a duration negates every field |

## Left out

- User deletion, admin pages, `cleartokens`, `createsuperuser` and password-hash upgrades at login, which write the same rows outside these protocols.
- The case-insensitive username pre-checks, and the user-handle row a passkey signup also inserts; the unique index on usernames is modelled.
- `rename_passkey` and the listing functions, which change or read nothing the other properties depend on.
- HTTP views, throttles, emails, redirects, the session-engine check, and the PKCE reads of the validator.
- WebAuthn and CBOR parsing, attestation, and the cryptography of signatures and tokens.
- The unlocked grant and refresh-token reads of django-oauth-toolkit, which is why nothing is claimed of OAuth tokens minted by a request already past its read.
- Lock-queue fairness and the detection of deadlocks by the database; a detected deadlock appears as an abort.
- Formatting and normalising the pairing code a person types; codes are numbers here.
- The line patterns and Markdown rendering of the Less docstring parser; lines arrive already matched.
- Whitespace inside the text given to `atob`, which it would skip.
- Floating-point rounding, time zones, daylight saving and locale text in moment; days and ratios are exact, and years are integers of any sign.
- The rest of moment, AngularJS, jQuery and Bootstrap, which are libraries whose state this application does not depend on, and the SQLite content readers, which are single queries over read-only files.
