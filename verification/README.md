# A verified model of the database users operator

The operator keeps a login role on every database server a User object refers to. This
project models its reconcile protocol, the PostgreSQL adapter it drives, and the text
layer under the adapter, and proves what the protocol keeps on every run.

- **Text layer.** `Text`, `Quoting` and `Statements` print what `utils.go` and
  `postgresql.go` print. `Sql` is an independent reader, written from sections 4.1.1 and
  4.1.2.1 of the PostgreSQL manual and the grammar of CREATE USER, DROP USER, GRANT and
  REVOKE. `ConnString` holds the connection-string printer and the keyword/value reader of
  section 34.1.1.1 of the PostgreSQL 15 manual.
- **Server.** `PrivilegeText` reads the privileges of GRANT and REVOKE as a PostgreSQL 15
  server does: the list grammar, the words it knows, and the kind of target each fits
  (GRANT in part VI of the manual, section 5.7, Appendix C for the key words). `Server` maps
  roles to what they hold and executes parsed statements, with the SQLSTATE codes the
  adapter looks at (42710, 42704) and those it does not (2BP01, 42601, 0LP01, 42939, 22023,
  0A000). `Plans` and `Passes` say what the adapter's statement lists do to it.
  `Interleaving` runs passes for any number of users on one server, and `Strategies` shows
  that the controller's passes are among them.
- **Protocol.** `Protocol` splits Reconcile at every API call and every statement. Each
  call may be answered, take effect with the answer lost, or fail; the process may die
  between any two; deletion may be requested and the object edited at any moment; the cache
  serves any stored version not older than the last one it served; and others, the same
  operator for another User among them, may have any server run any statement about another
  role at any moment (`Foreign`). `dropped` remembers which roles others have dropped.
  Statements are executed as printed text. A ref's connection is made anew for every
  statement, so it fails once its certificate files are gone. `Safety`, `Convergence`, `Obstacles`, `Deletion`,
  `Revocation`, `Limits`, `Secrets` and `Traces` prove properties of all its runs, and
  `Counterexamples` gives runs on which a goal is out of reach. `Outcomes` says how an
  undisturbed invocation ends, and `Endings` with which write of the object any invocation
  does.
- **Program.** `Host`, `Configuration`, `Cluster`, `Adapter` and `Controller` are classes in
  the form of the source: files, connections, the configuration object, the adapter and the
  reconciler, with their loops, early returns and deferred calls. Their contracts say that
  the code walks the protocol step by step, closes each connection it opened once, last
  opened first, and what becomes of the certificate files. `Environment` records what goes
  wrong around the operator: each method that stands for the outside world (an unanswered
  read, a stale cache, a lost answer, an unreadable reference, a refused connection, a file
  that cannot be written) notes the trouble it makes. So the contracts can say that the code
  gives up only with a reason: a pass may fail ahead of a call only to report a trouble, and
  `Reconcile` without any trouble does all there is to do.
- **MySQL and the test double.** `Mysql` compares the placeholder statements with the
  PostgreSQL ones. `Fake` shows that the order-stamped map is a statement log.

## Hypotheses

Stated once here; each theorem names in its `requires` the ones it needs.

- The User spec, the Database specs and the Privileges lists do not change during a run.
- The cache never goes back, not even across a restart, and one worker runs at a time.
- Only this User's Reconcile sends statements about its role, and the role owns nothing.
  Statements of others about other roles are steps of the runs. `Unrelated`: such a statement
  neither creates nor drops a role that an entry of this User names on that server. Safety,
  the Secret protocol and drop order hold whatever others do; where a theorem speaks of an
  undisturbed invocation (`Smooth`), or of what can still be reached (`Unmeddled`), others go
  on with what is unrelated.
- `DistinctServers`, `DistinctSecrets`: no two refs of the User name the same server, or
  the same created Secret. Needed for drop order and by the Secret theorems only.
- `Unmanaged`: the user's role exists on none of the servers before the run. Needed for drop
  order and by the Secret theorems only. `Intact`: before the run, memberships are in roles
  that exist, as a server sees to it.
- `Managed`: the user name is one role name for the server: one non-empty identifier, that
  is, without a dot and not `*`, and not `public` or `none`. `Creatable`: it does not start
  with `pg_` either. `Legible`: an entry's privilege text is made of words, blanks, commas
  and parentheses, without the words ON, TO, FROM, OPTION, SYSTEM and RULE; it may be empty,
  ungrammatical, or unknown to the server. `Readable`: the name is managed, and every entry
  legible, a membership without commas and parentheses.
- `Executable`: the entry is legible and its statement grammatical for the server: a list of
  privilege words with optional columns, or ALL, for a database or table; one word that can
  name a role for a membership; and a table named with its database is in the database of
  the entry. `Usable`: moreover the server knows the words and they fit the kind of target,
  which it looks at after it has found the grantee. `Sensible`: the name is creatable and
  every entry usable.
- `Available`: a role an entry grants membership in exists on its server now and is not the
  user's own. `KeepsFiles`: in a ref whose connection string names certificate files, no
  entry for the ref's own connection comes after one on an object in the ref's own
  database.
- `AllDroppable`: for every ref, on its server as it is now, the REVOKE loop ends with nothing
  or at an error that is swallowed, meets no entry that takes the outer certificate files
  away, and leaves the role without a database or table privilege. A ref whose server an
  earlier ref names finds the role dropped already.
- On the apply path Reconcile returns what the status update returned
  (`controllers/user_controller.go:86-89`), so a later invocation is a step of the
  environment and not a consequence of an error. Convergence is therefore stated as: from
  every reachable state, one undisturbed invocation reaches the goal.

## What turned out to be false, and exactly when it is true

- **Deletion does not always complete.** A user name with a dot, an empty one, `*`, `public`
  or `none` is printed as something the server rejects: such a User, with at least one ref,
  is never released once it has the finalizer (`Limits.StuckForever`;
  `Counterexamples.DottedNameStays` for `john.doe`). An entry on an object in the ref's own
  database is executed on a second connection whose end removes the certificate files of
  the first, so DROP USER fails in every later pass (`Counterexamples.OwnTableStays`). An
  entry whose privilege is mistyped, misplaced or no privilege at all stops every REVOKE loop
  that comes to it with an error that is not swallowed: once the role is there the object
  stays (`Counterexamples.RefusedEntryStays`; `MistypedStays` for `SELEC`), and for one that
  is no statement even without the role (`RefusedFirstStays`; `AllOfNothingStays` for `ALL`
  without a database). Two refs on one server: a User that is served is never released if
  the later ref grants a database or table privilege that the first does not list
  (`Limits.SharedServerStays`, `Counterexamples.JohnTwiceStays`). For legible entries, release
  is possible from wherever no Reconcile is running if and only if the name is managed and
  every ref is droppable (`Limits.ReleaseExactly`).
- **Ready is not always reachable.** For legible entries it can be reached if and only if
  the spec is sensible, available, and keeps its files (`Limits.ServeExactly`;
  `Counterexamples.OwnTableThenDatabaseNeverReady`, `MistypedStays`).
- **DROP USER can be blocked by a listed grant.** REVOKE of a membership in a missing role
  stops the loop, `RevokePrivileges` swallows the error, and later grants stay
  (`Passes.DropBlockedByMissingRole`). `Passes.DeleteMeaning` says exactly which rows block.
  So others that drop a role which an entry names, for one the same operator deleting the
  User of that name, block the deletion until somebody creates the role again
  (`Counterexamples.OthersDropStays`, with a run in `JohnLosesReader`). While nobody drops a named role it cannot happen, because
  the GRANT pass stopped at the same entry (`Revocation.DropFindsNothing`).
- **A created Secret can be missed**, and is then never repaired, while Ready becomes true
  without it (`Secrets.WindowCanBeMissed`, `Secrets.ReadyWithoutSecret`). A ref in
  certificate mode has its Secret, once its role is there and its pass has gone on, if and
  only if no step missed it (`Secrets.MissedExactly`); a Ready User has all of them if and
  only if none was missed (`Secrets.ReadySecretsExactly`).
- **Certificate files.** Those of the outer connection are there after the privilege loop
  if and only if no entry so far was on an object in the ref's own database
  (`Adapter.OuterFilesSurvive`, `Counterexamples.OwnTableTakesFiles`). A connection that
  was not made leaves its paths occupied if and only if a certificate that came before the
  failure is set (`Configuration.OccupiedExactly`,
  `Controller.UserReconciler.DatabaseReconciler`,
  `Counterexamples.RefusedConnectionLeavesFiles`).
- `escapeLiteralWithoutQuotes` means to remove `#`, but line 50 of
  `pkg/database/postgresql/utils.go` overwrites the result of line 49; the model follows the code.

## Model

| member | source | states |
|---|---|---|
| Safety.FinalizerSafety | controllers/user_controller.go:105-142 | On every run with any faults, crashes, stale reads, moment of deletion and statements of others about other roles, the user's role can be new only on servers the spec refers to, and only while the object exists with the finalizer |
| Safety.ReadyIsSound | controllers/user_controller.go:80-97 | In every reachable state a stored Ready without a deletion request means every referenced server has the role and every listed grant, but for memberships in roles that others have dropped there |
| Safety.InvRun | controllers/user_controller.go:101-147 | The invariant behind both is kept by every sequence of actions, those of others included |
| Convergence.ApplyConverges | controllers/user_controller.go:127-146 | From every reachable state without a deletion request one undisturbed Reconcile of a sensible spec that keeps its files, with the named roles there when it begins, ends with role, all grants and Ready |
| Convergence.CallAdvances | controllers/user_controller.go:113-142 | Every answered call lowers a lexicographic measure, so a Reconcile ends |
| Convergence.InvocationServes | controllers/user_controller.go:72-99 | An invocation with an up-to-date cache whose calls were all answered, others doing meanwhile only what is unrelated, ends with role, all grants and Ready once it has come to its end |
| Deletion.InvocationDeletes | controllers/user_controller.go:105-124 | The same for an object marked for deletion whose refs are droppable: the role is gone, and so are the created Secrets and the object |
| Deletion.DeletionConverges | controllers/user_controller.go:105-124 | From every reachable state marked for deletion in which every ref is droppable, one undisturbed Reconcile drops the role from all servers, leaves no created Secret, and lets the object go, also where refs share a server |
| Outcomes.InvocationOutcome | controllers/user_controller.go:72-99 | Whatever the spec says, an undisturbed invocation with an up-to-date cache ends with a true Ready, or without the object if it was marked for deletion, unless a statement was refused with an error that its caller does not tolerate |
| Endings.EndsAsDue | controllers/user_controller.go:79-98 | Any invocation, with any faults, stale reads and steps of others, ends with the write of a false Ready if and only if a call halted it; with a true one if none did and the version read was not Ready; for a deletion with the removal of the finalizer if and only if none did; and with no other write |
| Endings.CourseCall | controllers/user_controller.go:101-147 | Step by step: where a pass goes next tells whether one of its calls has halted it |
| Revocation.KeptRun | controllers/user_controller.go:223-240 | On every run, for a ref none of whose named roles others have dropped: the row holds nothing beyond the entries an apply pass can reach now, at the k-th REVOKE it holds none of the first k entries, and at DROP USER nothing |
| Revocation.DropFindsNothing | controllers/user_controller.go:230-239 | On every run, when DROP USER is about to be sent and others have dropped no role that the ref names, the role is absent or holds nothing, and an answer is no error or "does not exist" |
| Revocation.DroppableUndisturbed | pkg/database/postgresql/postgresql.go:113-139 | For such a ref, being droppable is a matter of the certificate files and of the error that ends the REVOKE loop alone |
| Limits.StuckForever | pkg/database/postgresql/utils.go:26-37 | A User whose name is no role name for the server, with at least one ref, never loses the finalizer, whatever others do |
| Limits.UnreadyForever | pkg/database/postgresql/postgresql.go:83-94 | A User whose name CREATE USER does not take, with at least one ref, never becomes Ready |
| Limits.ReleaseExactly | controllers/user_controller.go:111-124 | A User marked for deletion can be released if its name is a role name and every ref is droppable on the servers as they are; while no Reconcile is running, only then |
| Limits.SharedServerStays | controllers/user_controller.go:113-119 | Two refs on one server: a served User marked for deletion can never be released if the later ref grants a database or table privilege that the first does not list |
| Obstacles.ObstacleStays | pkg/database/connection/default.go:44-57 | A ref that is not droppable while no Reconcile is running stays so, and the object keeps its finalizer, whatever the operator does and whatever unrelated statements others send |
| Obstacles.OnTrackRun | pkg/database/postgresql/postgresql.go:113-139 | From there a delete pass is within the entries its loop sends, the entries before it revoked; at DROP USER the files are there exactly as the protocol says; and the refs it is done with were droppable and have lost the role |
| Obstacles.AbsentIsEasier | pkg/database/postgresql/postgresql.go:113-139 | What does not stop a pass that finds the role stops no pass that does not |
| Obstacles.RevokeVerdict | pkg/database/postgresql/postgresql.go:113-139 | A REVOKE succeeds if and only if the role exists and the entry is accepted; a failing one is swallowed if and only if the entry is usable or, without the role, executable; and what each does to the row |
| Obstacles.ForeignDroppable | pkg/database/postgresql/postgresql.go:113-139 | A statement of others that neither creates nor drops a named role changes the droppability of no ref |
| PrivilegeText.AskedErrorMeans | api/v1alpha1/privileges_types.go:23-34 | The server takes a privilege list, once it has found the grantee, if and only if every privilege in it is known and fits a database, a table or its columns; nothing in the resource restricts the text |
| Limits.ServeExactly | controllers/user_controller.go:136-146 | A true Ready can be reached if and only if CREATE USER takes the name, every entry is usable, every named role exists on its server and is not its own, and no entry needs certificate files that an earlier one took away |
| Limits.ReadyPassedRun | pkg/database/postgresql/postgresql.go:117-152 | On every run, a stored Ready and each entry an apply pass has behind it imply that the entries concerned are usable, not the role in itself, and not left without certificate files |
| Limits.IntactRun | pkg/database/postgresql/postgresql.go:102-107 | On every run, memberships on every server are in roles that exist there |
| Limits.OtherRowRun | pkg/database/postgresql/postgresql.go:83-139 | The operator leaves other roles alone: none is created or dropped, and no row but the user's gains anything |
| Counterexamples.DottedNameStays | pkg/database/postgresql/utils.go:26-37 | A User called `john.doe`, after the finalizer and then deletion, can never be released |
| Counterexamples.OwnDatabaseFirstStays | pkg/database/postgresql/postgresql.go:141-152 | A certificate-mode ref whose first entry is on an object in its own database keeps the object after every run, whatever others do |
| Counterexamples.OwnTableStays | pkg/database/postgresql/config.go:109-114 | A concrete spec meeting every other condition, and servable, that can never be released |
| Counterexamples.OwnTableThenDatabaseNeverReady | pkg/database/postgresql/postgresql.go:117-139 | The same with a grant on the database after it can never be Ready |
| Counterexamples.RefusedEntryStays | pkg/database/postgresql/postgresql.go:113-139 | An entry that is not usable, the entries before it revocable: once the role is there the object is never released |
| Counterexamples.RefusedFirstStays | pkg/database/postgresql/postgresql.go:113-139 | A first entry that is not executable: never released, with or without the role |
| Counterexamples.MistypedStays | api/v1alpha1/privileges_types.go:23-34 | A concrete run: SELEC on a database is never Ready, and after CREATE USER and a deletion request never released |
| Counterexamples.AllOfNothingStays | pkg/database/postgresql/postgresql.go:127-128 | A concrete run: ALL without a database is never released, though no role was created |
| Counterexamples.OthersDropStays | pkg/database/postgresql/postgresql.go:113-115 | Others drop a role that an entry names while the User is served and marked for deletion: with a database or table privilege listed after it the object is never released |
| Counterexamples.JohnLosesReader | pkg/database/postgresql/postgresql.go:113-115 | A concrete run: with membership in `reader` and SELECT on a table, release is possible until others drop `reader`, and not after |
| Counterexamples.JohnTwiceStays | controllers/user_controller.go:113-119 | A concrete run: a User served on two refs to one server is never released |
| Counterexamples.OwnTableTakesFiles | pkg/database/postgresql/config.go:109-114 | For that list the outer connection's files are not all there after the loop |
| Counterexamples.RefusedConnectionLeavesFiles | pkg/database/postgresql/postgresql.go:52-59 | A call of Connect that the server refuses after the string was made leaves certificate paths occupied if and only if a certificate is configured |
| Limits.ServedHolds | pkg/database/postgresql/postgresql.go:164-183 | Being served, defined on parsed texts, means the role holds each listed entry |
| Limits.WorkNeverGrows | controllers/user_controller.go:101-147 | Until the deletion has been read no step removes the role or a listed grant, but for memberships in roles that others drop; from then on no step adds anything to the role |
| Secrets.NeverOverwritten | controllers/user_controller.go:253-265 | No step changes the contents of a Secret, and a new one is only the ref's own with the certificates just issued |
| Secrets.SecretNeedsCreate | controllers/user_controller.go:248-256 | A pass about to create a Secret has itself created the role by an answered CREATE USER |
| Secrets.MissedExactly | controllers/user_controller.go:242-266 | For a certificate-mode ref and any run without deletion: past the window the Secret exists if and only if no step missed it, and before that none has |
| Secrets.ReadySecretsExactly | controllers/user_controller.go:242-266 | In a Ready state all certificate-mode refs have their Secrets if and only if none was ever missed |
| Secrets.ReadyHasSecrets | controllers/user_controller.go:242-266 | Under fewer hypotheses, a Ready certificate-mode ref whose Secret was never missed has it |
| Secrets.SecretSettled | controllers/user_controller.go:248-256 | Once the role exists and its creating pass has moved on, no run without deletion adds or removes the Secret |
| Secrets.WindowCanBeMissed | pkg/database/postgresql/postgresql.go:66-81 | A run in which one lost answer to CREATE USER leaves a certificate-mode role without its Secret |
| Secrets.ReadyWithoutSecret | controllers/user_controller.go:248-251 | Such a state of a certificate-mode ref converges to Ready and still has no Secret |
| Traces.PassSendsPrefix | controllers/user_controller.go:138-142 | Whatever happens to the calls, what an apply pass has really sent is a prefix of CREATE USER then the GRANTs in order, and all of it once it went beyond the ref |
| Plans.ReplayEquivalence | controllers/user_controller.go:223-228 | Any number of apply passes cut anywhere, then a full one, leave the server and the error of one clean pass |
| Plans.CreateMeaning | pkg/database/postgresql/postgresql.go:83-94 | The printed CREATE USER adds the empty role, or is rejected as duplicate, reserved or ungrammatical, each exactly when |
| Plans.DropMeaning | pkg/database/postgresql/postgresql.go:102-107 | The printed DROP USER removes the role and memberships in it, or is rejected as missing, blocked, special or ungrammatical, each exactly when |
| Plans.ChangeEffect | pkg/database/postgresql/postgresql.go:117-139 | Whatever the privilege text, a printed GRANT only adds to rows, a REVOKE only removes, neither touches which roles exist, and an error changes nothing |
| Passes.TextRefinesRequest | pkg/database/postgresql/postgresql.go:117-183 | The printed statement does to the server what the entry asks for, on the database it names; an entry that is refused, ungrammatical or about another database does nothing and fails |
| Passes.LoopMeaning | pkg/database/postgresql/postgresql.go:117-139 | For every legible list the loop adds or removes exactly the entries before the first that is not accepted and reports why that one was not |
| Passes.ApplyMeaning | controllers/user_controller.go:223-228 | From a server without the role, the apply pass leaves it holding exactly the reachable entries, without error if and only if all are |
| Passes.DeleteMeaning | controllers/user_controller.go:230-240 | The delete pass stops at an entry that is not usable, or is refused exactly when a blocking privilege survives the REVOKEs before the first missing role, or drops the role |
| Passes.DropOrder | pkg/database/postgresql/postgresql.go:113-139 | When every named role exists, the REVOKEs succeed and leave none of the listed grants |
| Passes.DropBlockedByMissingRole | pkg/database/postgresql/postgresql.go:113-115 | A concrete list and server on which the swallowed error makes DROP USER fail |
| Passes.DeleteUndoesApply | controllers/user_controller.go:223-240 | One delete pass after any interrupted apply passes gives back the server as it was, even if the apply passes could not finish |
| Passes.RevokeWithoutRole | pkg/database/postgresql/postgresql.go:113-115 | Without the role, revoking changes nothing, and its error is swallowed if and only if there is no entry or the first is executable |
| Interleaving.UsersDoNotInterfere | controllers/user_controller.go:223-239 | Any number of users' passes on any schedule: each gets the answers it gets alone, and the server ends as if they had run one after the other |
| Strategies.ControllersDoNotInterfere | controllers/user_controller.go:223-240 | The same for the controller's own apply and delete passes, cut anywhere |
| Interleaving.OnlyOwnRow | controllers/user_controller.go:223-239 | A pass changes its own role's row and memberships in that role, nothing else |
| Strategies.ApplyIsAlone | controllers/user_controller.go:223-228 | The apply pass, cut anywhere, is a run of one of the rules that interleaving speaks of |
| Strategies.DeleteIsAlone | controllers/user_controller.go:230-240 | So is the delete pass |
| Strategies.PassesAreOfTheirUser | controllers/user_controller.go:223-240 | The rules of both passes send operations of their user and entries only |
| Interleaving.OperationsAbout | pkg/database/postgresql/utils.go:26-37 | Every statement the adapter prints for a user concerns that user's role |
| Statements.CreateUserRoundTrip | pkg/database/postgresql/postgresql.go:83-94 | Read back: exactly the role and, if and only if set, the password; rejected if and only if the name is not one identifier |
| Statements.DropUserRoundTrip | pkg/database/postgresql/postgresql.go:102-107 | Read back: the same identifier as in CREATE USER |
| Statements.ChangeRoundTrip | pkg/database/postgresql/postgresql.go:164-183 | Read back: verb, privilege words, kind of target, target path and grantee; a table is never read as ON DATABASE |
| Statements.ChangeStaysChange | pkg/database/postgresql/postgresql.go:164-183 | Whatever the privilege text, a GRANT is read as a GRANT or rejected, a REVOKE as a REVOKE or rejected |
| Quoting.LexLiteral | pkg/database/postgresql/utils.go:26-37 | Any name followed by a blank is read as its dot-separated segments without NUL, a lone star as wildcard, and the rest untouched |
| Quoting.LiteralInjective | pkg/database/postgresql/utils.go:26-37 | Two names print alike if and only if they agree once NULs are removed |
| Quoting.EscapeLiteral | pkg/database/postgresql/utils.go:26-37 | The array loop computes the quoting that `LexLiteral` reads back: part by part a star as it is, any other part in quotes that read as the part without NULs |
| Quoting.EscapeLiteralWithoutQuotes | pkg/database/postgresql/utils.go:43-53 | The result read with each doubled quote as one is the text without its NULs and semicolons; quotes occur twice as often as in the text, NULs and semicolons not at all, and every other character, `#` and `.` included, as often as there |
| Quoting.CleanedMeans | pkg/database/postgresql/utils.go:43-53 | Whatever the text, nothing is lost but NULs and semicolons, the order is kept, and no quote stands alone |
| Quoting.CollapsedOnce | pkg/database/postgresql/utils.go:43-53 | So the printed text is determined: texts without lone quotes that read the same are the same |
| Quoting.CleanedDrops | pkg/database/postgresql/utils.go:43-53 | No semicolon or NUL remains in privilege text |
| Sql.LexConstant | pkg/database/postgresql/utils.go:39-41 | A quoted password, whatever its characters, is one string constant with that value |
| ConnString.ConnStringRoundTrip | pkg/database/postgresql/config.go:61-107 | The reader gets back the list of configured pairs from its printed form |
| ConnString.PairsSay | pkg/database/postgresql/config.go:61-107 | For all settings: under each key of that list is the field it is named for, the host under host, the user under user, the decimal port under port; name, password and mode if and only if set; the three paths if and only if their certificate is; no key twice and no other key |
| ConnString.DecimalRoundTrip | pkg/database/postgresql/config.go:62-66 | The port is recovered from its decimal form |
| Configuration.Config.ConnString | pkg/database/postgresql/config.go:61-107 | A reader of the string finds each setting under its own key and the three paths, which tell host, database and user, under theirs; the file at the path of each set certificate has that certificate as its contents, every other file is unchanged, on failure likewise for those that came before it; certificates are to be issued if and only if a user certificate or key is set; it fails only if a file could not be written |
| Configuration.Config.CreateCertFile | pkg/database/postgresql/config.go:126-132 | The file at the path gets the certificate as its contents, no other file changes, and nothing changes on an error |
| Configuration.Config.Close | pkg/database/postgresql/config.go:109-114 | Removes the three files and nothing else |
| Configuration.Config.Copy | pkg/database/postgresql/config.go:116-120 | A fresh configuration with every field equal |
| Configuration.CertPathsDisjoint | pkg/database/postgresql/config.go:79-81 | Two connections to one server as one user share certificate paths if and only if they are to the same database |
| Configuration.OccupiedExactly | pkg/database/postgresql/config.go:83-104 | Writing the first certificates and stopping leaves paths occupied if and only if one of them is set |
| Adapter.OuterFilesSurvive | pkg/database/postgresql/postgresql.go:141-152 | After any number of entries the outer connection's files are on disk if and only if no entry so far was on an object in the ref's own database, and they are unchanged |
| Adapter.LoopKeepsFiles | pkg/database/postgresql/postgresql.go:117-152 | For the whole loop of a ref in certificate mode, the same as a condition on its list |
| Adapter.NestedPathsApart | pkg/database/postgresql/postgresql.go:141-152 | The loop's nested paths avoid the outer ones if and only if no in-database entry names the outer database |
| Adapter.Connection.Exec | pkg/database/connection/default.go:44-70 | A statement is sent if and only if the files its connection string names are on disk, which is when the protocol can send it; otherwise it fails and no server changes |
| Adapter.Postgresql.Connect | pkg/database/postgresql/postgresql.go:52-59 | Opens one connection on top of the open ones with each set certificate in the file its path names, or opens none and leaves exactly those written before the failure, all of them if the server refused; it fails only for a file or for the server |
| Adapter.Postgresql.Close | pkg/database/postgresql/postgresql.go:61-64 | Closes the connection opened last and removes its three files |
| Adapter.Postgresql.CreateUser | pkg/database/postgresql/postgresql.go:66-81 | Sends the protocol's CREATE USER; certificates are returned only if the server created the role |
| Adapter.Postgresql.DeleteUser | pkg/database/postgresql/postgresql.go:96-100 | Sends the protocol's DROP USER and reports success if and only if the protocol counts the role as dropped |
| Adapter.Postgresql.InDatabasePrivilege | pkg/database/postgresql/postgresql.go:141-152 | The statement runs on a connection of its own, closed again whatever the answer; its certificate files are gone if it connected, and are exactly those written before the failure if not |
| Adapter.Postgresql.PrivilegesProcessor | pkg/database/postgresql/postgresql.go:117-139 | Walks the protocol's statements in order to the first error; the open connections are as before, files change only at nested paths, and the protocol's account of the outer files is the disk's |
| Adapter.Postgresql.ApplyPrivileges | pkg/database/postgresql/postgresql.go:109-111 | All GRANTs of the ref, or the protocol's abort |
| Adapter.Postgresql.RevokePrivileges | pkg/database/postgresql/postgresql.go:113-115 | All REVOKEs, or up to a missing role, lead to DROP USER; any other error skips it |
| Host.ClosedWhatItOpened | pkg/database/postgresql/postgresql.go:141-152 | Whoever leaves the open connections as it found them has closed each one it opened exactly once |
| Host.ClosedOnce | controllers/user_controller.go:175-185 | In a journal without out-of-order closes, openings equal closings plus what is still open |
| Controller.UserReconciler.Reconcile | controllers/user_controller.go:72-99 | One invocation is a run of the protocol from idle to idle, hence finalizer safety, soundness of Ready and convergence. Without a pass the object could not be read and that is the error. Otherwise it ends with exactly the write that is due, returns the answer of that write, and on success the object is gone or its status says what was written; without such a write it fails exactly for a deletion that a call halted. If nothing went wrong around it, it fails only for a deletion that the server refused, and unless a statement was refused the object is Ready, or gone; and the goal is reached where it can be. Each connection is closed exactly once |
| Controller.UserReconciler.ReconcileUser | controllers/user_controller.go:101-147 | Finalizer, refs and removal in the protocol's order. A deletion succeeds only if there was no finalizer or the object is gone; one that fails has not written the object, or returns the answer to the write; if nothing went wrong it leaves the object as it was. Otherwise the caller is left at the status write that is due |
| Controller.UserReconciler.DatabaseReconciler | controllers/user_controller.go:163-187 | One ref is applied or deleted and its connection closed; its certificate paths, if empty before, are left occupied if and only if it did not connect and a certificate before the failure is set; after a successful apply the nested ones are empty too; no other file changed |
| Controller.UserReconciler.Privileges | controllers/user_controller.go:211-221 | The entries of all lists, each list in its place; an error means that a list could not be read |
| Controller.UserReconciler.DatabaseUserApply | controllers/user_controller.go:223-228 | CREATE USER, the Secret, then the GRANTs, up to the first failure |
| Controller.UserReconciler.DatabaseUserDelete | controllers/user_controller.go:230-240 | REVOKEs, DROP USER unless they failed, and the Secret's deletion on every path |
| Controller.UserReconciler.CreateUserInDatabase | controllers/user_controller.go:242-266 | The Secret is looked up and created only after certificates were issued |
| Controller.UserReconciler.SetStatus | controllers/user_controller.go:149-152 | Writes the status with the version the pass read; on success the stored status is that value, and with the stored version it fails only if something went wrong |
| Cluster.Cluster.Exec | pkg/database/connection/default.go:66-70 | A statement that can be sent and is answered does to its server, as others left it, what executing the text does, and to no other server anything |
| Cluster.Cluster.UpdateAdding | controllers/user_controller.go:127-134 | On success the stored object has the finalizer and the pass goes on with its version; otherwise the pass is at the status write with the old one |
| Cluster.Cluster.UpdateRemoving | controllers/user_controller.go:121-124 | On success the object is gone; with the stored version it fails only if something went wrong |
| Cluster.Cluster.PostSecret | controllers/user_controller.go:265 | Creates the Secret if the name is free, and fails only if it is not or something went wrong |
| Cluster.Cluster.RemoveSecret | controllers/user_controller.go:231-233 | An answered Delete has removed the Secret, and the pass goes on as if it had been |
| Cluster.Cluster.Get | controllers/user_controller.go:189-201 | A read that is answered serves a stored version, not older than the last one, and starts a pass for it; any other is an error and changes nothing |
| Mysql.QueryRoundTrip | pkg/database/mysql/mysql.go:83-103 | Placeholders and arguments match in number and, filled in order, say what was asked, for all texts |
| Mysql.AdaptersAgree | pkg/database/mysql/mysql.go:73-103 | Entry by entry the PostgreSQL statement asks for what the MySQL one asks for; it exists if and only if the user name is one identifier and the privilege not blank, and nothing is sent if and only if the privilege is empty |
| Mysql.Mysql.PrepareStatement | pkg/database/mysql/mysql.go:83-103 | The statement and arguments built step by step are read as the entry's intent |
| Mysql.Mysql.PrivilegesProcessor | pkg/database/mysql/mysql.go:73-81 | What was sent asks for the entries in order up to the first error, and no further |
| Mysql.LoopStopsAtFirstError | pkg/database/postgresql/postgresql.go:117-139 | The PostgreSQL loop stops, and reports, by the same rule |
| Fake.StampIsLastNumber | pkg/database/connection/fake.go:65-72 | A statement is in the map if and only if it was executed since the reset, under the global number of its last execution |
| Fake.StampsDiffer | pkg/database/connection/fake.go:65-72 | Distinct statements carry distinct numbers |
| Fake.SprintTells | pkg/database/connection/fake.go:65-69 | Executions of one query with arguments of the same lengths share a key if and only if the arguments are the same |
| Fake.MapIsLog | pkg/database/connection/fake.go:65-78 | For statements executed once each, equal maps mean equal logs in order |
| Fake.FakeConnection.Exec | pkg/database/connection/fake.go:65-72 | Counts on and stamps the key made of the query and after it the arguments in order, keeping the map a faithful log |
| Fake.FakeConnection.ResetDB | pkg/database/connection/fake.go:86-91 | Empties both maps and does not rewind the counter |
| Fake.FakeConnection.Queries | pkg/database/connection/fake.go:74-78 | The map as a log: membership, last numbers, distinctness |
| Fake.Replay | pkg/database/connection/fake.go:38-91 | After any sequence of calls that does not execute before the maps exist, the map is the log since the last reset |

## Left out

- MySQL convergence: `CreateUser` and `DeleteUser` of the MySQL adapter swallow no "already exists" or "does not exist" error, so replay fails there; only its privilege statements are modelled.
- A guarantee that the created Secret is deleted when its Delete is not answered: the deferred call drops the error.
- Certificate generation, PEM and X.509: whether it succeeds is a choice of the environment, and the result is a serial number. `CreateUser` in postgresql.go also makes certificates when CREATE USER failed for another reason, and drops them; the serial does not advance there.
- Secret data, password Secrets and owner references: reading or setting them succeeds or fails; the password is part of the ref.
- Status messages, events and logging.
- A status or finalizer write that changes nothing gets a new version in the model; the API server may keep the old one.
- Missing tables, databases or schemas on the server: a statement or connection that fails for such a reason is a failed call; only roles are tracked, and 42704 comes from a missing role only.
- How the driver reads certificates: each new connection needs all the files its string names.
- Role lists such as `a, b` and column lists in an entry without a target, the clauses GRANT OPTION FOR, ALTER SYSTEM and the obsolete RULE, and privilege text with other characters than words, blanks, commas and parentheses: such entries are not `Readable`. The safety theorems hold for them in the model's reading, which rejects some that a server would accept.
- Passes.TextRefinesRequest, Passes.ApplyMeaning, Passes.DeleteMeaning: only for legible privilege text, for the same reason.
- Objects that are no tables: `on` is read as a table, so USAGE and EXECUTE, which fit sequences, schemas and functions, fit nothing; a sequence that is named like a table would take USAGE.
- Indirect circles of memberships: a server also refuses to grant a role that is itself, through other roles, a member of the user's role; the model's server looks for the user's own role only.
- A User called `public`: its REVOKEs would be carried out on everybody; in the model they fail like its CREATE USER and DROP USER.
- Rights of the operator's own login, and objects owned by the user's role: the operator may do everything, and DROP USER is blocked by grants only.
- Identifier truncation at 63 bytes, Unicode and encodings: names are sequences of characters.
- Path cleaning in `PathFromHome`: names with `/` or `..` are kept as they are, and HOME is a constant.
- Negative ports: a port is a natural number.
- `os.Remove` that fails: removal always succeeds in the model.
- Host.Host.WriteFile: on an error the files are as before, while `os.WriteFile` may leave a truncated file behind; such a file is one more that is not removed.
- Configuration.Config.ConnString: the CA key is not a field, since it is only used to make certificates.
- Adapter.Postgresql.Connect: the connection goes to the settings it was printed from; that the driver reads them back is `ConnStringRoundTrip`, for values without blanks, quotes and backslashes.
- Mysql.AdaptersAgree: only for legible privilege text, since the PostgreSQL form of other text depends on how the server reads it.
- Fake.FakeConnection.Exec: the mutex is left out; calls happen one after another.
- Revocation.DropFindsNothing: two refs on one server are excluded, because the first DROP USER then meets the grants of the second ref (`Limits.SharedServerStays`); so are they in the Secret theorems, where the second ref finds the role created and gets no Secret.
- Connection strings of MySQL, driver dispatch in `pkg/database/database.go`, deep copies, CRDs, RBAC, `main.go` and scripts have no algorithm of their own here.
