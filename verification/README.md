# AergoLite, verified

AergoLite replicates an SQLite database over a private blockchain and adds stored
procedures to its SQL. This project models the parts whose correctness is hardest to
see in the C code, and proves what they are for:

- **Stored procedures** (`StoredProc*.dfy`). One pass with two stacks turns nested IF,
  LOOP and FOREACH statements into a flat command array with jumps; a loop over `pos`
  with flags and cursors runs it. The flat run is proved equal to a structured meaning
  of the body, ending or not, and the statement lists that the parser accepts are
  characterized exactly. What both share, the deciding of conditions, the storing of rows
  and the reach of exits, is described in terms of the engine alone.
- **List literals** (`ListLiterals.dfy`). The reader of `[1, 'a', [2]]`.
- **Consensus** (`Consensus*.dfy`, `WaitTime.dfy`). Two rounds of majority votes per
  height at every node, with the open and the committed database, the mempool, the
  transactions asked for and the wait timer as part of its state, over runs with votes
  delivered in any order, repeatedly or never: agreement, round-change soundness, exact
  vote counters, no vote lost, choice of block, and commits exactly by more than half.
- **Blocks and nonces** (`Proposer*.dfy`). Building a block from the mempool, replaying
  it elsewhere, the data and the nonces of a whole chain, what stays in the mempool.
- **Replicated state** (`Replicated*.dfy`). Both together, in runs in which every node
  judges and builds blocks from its own database and mempool: each node holds the
  database its chain leads to, every committed block was built on the database of the
  ones before it, and the nonces of the committed chain are accounted for.
- **Base58** (`Numerals.dfy`, `Base58*.dfy`). Bignum conversion in place, in both
  directions, up to the addresses built on it.
- **Message framing** (`MessageFraming.dfy`). Reassembly of length-prefixed messages.
- **Digests and cipher** (`Sha256.dfy`, `Bits.dfy`, `Checksum.dfy`, `Xrc4.dfy`).
- **Containers** (`GrowableArray.dfy`, `PageCollection.dfy`, `LinkedList.dfy`).

Where the source works in place, a class or an array method does too, and its contract
ties the new state to a function of the old one; the laws are proved about those
functions. `dafny verify dfyconfig.toml` checks everything.

What the proofs found, where code and documentation or expectation differ:

- The guard against voting twice in a round remembers the latest vote only. It can fail
  when a transaction that the node asked for arrives after its round-1 vote;
  `VotesTwiceIff` gives the exact circumstances for either round. `Disagreement` is a run
  in which two honest nodes commit different blocks because of it, `TwiceInBothRounds` one
  in which either round can be repeated. Agreement is proved for the runs without an
  arrival at such a node (`Exposed`), in which no vote is ever repeated (`VotesOnce`).
- A transaction whose execution is busy is counted and uses up its nonce in the
  builder's array without entering the block (`BusyLeavesGap`). `BlockNonces` and
  `ChainContinues` say, in terms of the mempool, exactly when nonces have no gap.
- The Base58 encoder's digit buffer, 1.38 digits a byte rounded down, is too short for
  some lengths; `Encode` wraps its index exactly then, and `SafeLengthIff` says for
  which lengths it never happens. The 38 bytes of an address are safe.
- The size that the Base58 decoder reports can exceed its buffer, and the checksum is
  then looked for behind it: `SizeBeyondIff` says for which texts, `ReadsBeyond` gives a
  family of them.
- After a read error the framing code releases its buffer but keeps the fill count
  (`ReadError`, `ErrorAfter`, `ErrorInFrame`).
- The capacity of the growable array wraps at 65536; `Collect` survives exactly the
  lists for which `Fits` holds (`FewPagesFit`, `ManyPagesDoNotFit`).
- The tokenizer reports the word NULL as a keyword, which the list reader does not
  accept, although the comment above `sqlite3ValueFromToken` lists it (`NullIsRejected`).
- The parser checks IF and LOOP independently of each other (`AcceptedIff`): an IF may
  cross a LOOP (`CrossingAccepted`), and one that is never closed makes some false
  condition restart the procedure (`UnclosedIfRestarts`). The compiler proof is about
  well-nested bodies (`WellNestedIff`).
- A FOREACH over a variable that holds no list sets the error text but returns
  SQLITE_OK: it runs as a LOOP without end (`NoListIsLoop`, `NoListDiverges`).

## Model

| member | source | states |
|---|---|---|
| StoredProcMachine.Procedure.NewCommand | core/stored_proc.c:677-698 | a new command goes to the first free slot with both links 0; growth by doubling keeps all earlier commands |
| StoredProcMachine.Procedure.ParseCommand | core/stored_proc.c:1048-1094 | appending and linking one statement changes the array and the two global stacks exactly as the link step does, errors included |
| StoredProcMachine.Procedure.ParseArm | core/stored_proc.c:1434-1509 | ELSEIF and ELSE are linked from the last command of the IF block on top and related to its first |
| StoredProcMachine.Procedure.ParseEndIf | core/stored_proc.c:1511-1540 | END IF is linked from the last command of the block and pops it |
| StoredProcMachine.Procedure.ParseEndLoop | core/stored_proc.c:1579-1613 | loop start and END LOOP are related to each other and the loop is popped |
| StoredProcMachine.Procedure.ParseJump | core/stored_proc.c:1615-1731 | BREAK n and CONTINUE n are related to the n-th loop up, or rejected if there are fewer |
| StoredProcMachine.Procedure.ParseBody | core/stored_proc.c:839-945 | parsing a whole body is the link pass over its statements, up to the first error |
| StoredProcMachine.Procedure.Compile | core/stored_proc.c:839-945 | every well-nested body is accepted and both global stacks are left as found, whatever they held |
| StoredProcMachine.Procedure.FetchFromList | core/stored_proc.c:3049-3062 | the columns of the next list item are stored in the variables in order and the cursor moves on, or the cursor returns to 0 at the end |
| StoredProcMachine.Procedure.FetchFromSelect | core/stored_proc.c:3063-3158 | the same for the rows of a statement, with new variables when none are named |
| StoredProcMachine.Procedure.EnterLoop | core/stored_proc.c:3308-3338 | LOOP always enters; FOREACH enters on a row, ends on none, and enters without assigning when the variable holds no list |
| StoredProcMachine.Procedure.Decide | core/stored_proc.c:3256-3303 | the condition of IF and ELSEIF is evaluated once and its answer is the decision, ELSE always holds; an error stops the run |
| StoredProcMachine.Procedure.Perform | core/stored_proc.c:3213-3254 | plain statements take effect in order; RETURN, RAISE and errors end the run |
| StoredProcMachine.Procedure.Round | core/stored_proc.c:3211-3339 | one round of the interpreter loop is one step of the flat semantics: position, flags, cursors and store |
| StoredProcMachine.Procedure.Execute | core/stored_proc.c:3209-3341 | the loop over pos is the iterated step, halting where it halts |
| StoredProcMachine.Procedure.Run | core/stored_proc.c:3173-3360 | a compiled body that ends has ended with its structured meaning |
| StoredProcLink.LinkBlock | core/stored_proc.c:1391-1872 | linking the statements of a nested block from any state of array and stacks yields its code and restores the stacks |
| StoredProcLink.LinkStmt | core/stored_proc.c:1400-1613 | the same for one statement, whatever encloses it |
| StoredProcLink.LinkArms | core/stored_proc.c:1434-1540 | ELSEIF, ELSE and END IF continue the chain of one IF block in order |
| StoredProcLink.LinkAppend | core/stored_proc.c:839-906 | linking two runs of statements is linking the first, then the second |
| StoredProcCorrectness.LinkSucceeds | core/stored_proc.c:1391-1872 | the link pass succeeds on well-nested bodies, restores both stacks, and keeps every jump target inside the array |
| StoredProcCorrectness.StaleLoops | core/stored_proc.c:1542-1731 | entries on the global loop stack that belong to other procedures do not influence the code |
| StoredProcCorrectness.CompilerCorrect | core/stored_proc.c:3210-3340 | the flat run ends with an outcome and a final state (variables, tables, cursors, order of evaluations) if and only if the structured meaning does, whatever the flags held before |
| StoredProcCorrectness.DivergenceCorrect | core/stored_proc.c:3210-3340 | the flat run goes on forever if and only if the structured meaning does |
| StoredProcCorrectness.FlatFollows | core/stored_proc.c:3210-3340 | a structured run within some number of loop rounds is followed by the flat one, step for step |
| StoredProcAcceptance.AcceptedIff | core/stored_proc.c:839-945 | a statement list is accepted if and only if in every prefix ELSEIF, ELSE and END IF find an open IF, END LOOP an open loop, and BREAK n and CONTINUE n enough open loops, the two counts being independent; the stacks then hold what is open |
| StoredProcAcceptance.ClosedIff | core/stored_proc.c:839-945 | both stacks end empty if and only if in addition both counts end at 0 |
| StoredProcAcceptance.UnclosedIfRestarts | core/stored_proc.c:3270-3303 | in every accepted list with an IF left open some IF, ELSEIF or ELSE restarts the whole procedure when it is passed over |
| StoredProcAcceptance.WellNestedIff | core/stored_proc.c:1391-1872 | a list consists of the statements of a well-nested body with valid jumps if and only if one common stack accepts it |
| StoredProcAcceptance.CrossingAccepted | core/stored_proc.c:1511-1613 | IF and LOOP that cross each other around any three bodies are accepted, with both stacks empty at the end, and are no well-nested body |
| StoredProcNoList.EntersUnchangedIff | core/stored_proc.c:3028-3062 | FOREACH lets its body run with nothing fetched if and only if the variable is missing or holds no list |
| StoredProcNoList.NoListIsLoop | core/stored_proc.c:3028-3062 | while the variable holds no list, FOREACH is LOOP |
| StoredProcNoList.NoListDiverges | core/stored_proc.c:3308-3338 | with a body that neither leaves the loop nor makes the variable a list the procedure never ends, structured and compiled |
| StoredProcSimulation.SimBlock | core/stored_proc.c:3210-3340 | the placed code of a block runs to where its structured signal says: behind it, to the loop an exit names, or to the end |
| StoredProcSimulation.SimLoop | core/stored_proc.c:3308-3338 | the same for LOOP and FOREACH with multi-level BREAK and CONTINUE |
| StoredProcSimulation.SimArms | core/stored_proc.c:3270-3303 | the same for the arms of an IF, with the EXECUTED flag of its first command |
| StoredProcForEach.ForEachComplete | core/stored_proc.c:3028-3158 | a list FOREACH that is not left early runs its body once per remaining item, in order, and leaves its cursor at 0 |
| StoredProcForEach.SweepFetches | core/stored_proc.c:3049-3062 | the items fetched at the site are exactly the list, however the body nests other loops |
| StoredProcForEach.LeftEarlyResumes | core/stored_proc.c:3049-3062 | a FOREACH left by BREAK, an outer CONTINUE, RETURN or an error keeps its cursor behind the current item |
| StoredProcForEach.BlockKeeps | core/stored_proc.c:3028-3158 | a block reads and writes only the cursors of its own FOREACH sites |
| StoredProcForEach.BlockQuiet | core/stored_proc.c:3028-3158 | a block fetches nothing at sites outside it |
| StoredProcMeaning.IfTakesFirst | core/stored_proc.c:3256-3303 | an IF runs the body of the first arm whose condition the engine finds true, or of ELSE; the conditions before it were evaluated in order and found false, none behind it is evaluated; an error of a condition stops the procedure with its code |
| StoredProcMeaning.CompiledIf | core/stored_proc.c:3210-3303 | the flat run of a compiled procedure that starts with an IF ends as its body does when the condition is true, as its other arms do when it is false, and with the error code when there is one |
| StoredProcMeaning.ListHead | core/stored_proc.c:3049-3158 | FOREACH over a list stores the next item column by column: variable i holds value i, the last one if it is named twice, and no other variable changes; a wrong number of columns is an error; behind the last item the cursor is 0 |
| StoredProcMeaning.SelectHead | core/stored_proc.c:3063-3158 | the same for the rows of a query, which is started afresh exactly when the cursor is 0; without listed variables those named by the columns are used |
| StoredProcMeaning.PassesStore | core/stored_proc.c:3137-3158 | in a FOREACH that is run to its end pass k starts with the columns of item k in the variables, and with everything else as the passes before it left it |
| StoredProcMeaning.BreakLeaves | core/stored_proc.c:3305-3320 | BREAK n leaves n loops at once, and one without a level; nothing behind the inner ones runs |
| StoredProcMeaning.ContinueRestarts | core/stored_proc.c:3308-3314 | CONTINUE n starts the n-th loop over, the innermost without a level |
| ListLiterals.ListReadIff | core/stored_proc.c:357-473 | a written list of any nesting and layout, trailing commas, TRUE and FALSE included, is accepted, and exactly its text and trailing blanks are consumed, if and only if it holds no NULL and no unknown variable; the values are those written if and only if no integer is beyond 64 bits, and the nearest ones otherwise |
| ListLiterals.NullIsRejected | core/stored_proc.c:251-330 | where every variable name passes, a written list is rejected if and only if it holds a NULL at any depth; a comma before the closing bracket never matters |
| ListLiterals.DocRead | core/stored_proc.c:403-446 | one written value is read back whatever follows it |
| ListLiterals.EntriesRead | core/stored_proc.c:389-465 | the rest of a list is read back, appended to the values read so far |
| ListLiterals.ParseListAt | core/stored_proc.c:357-485 | the loop and its recursion read the list of the specification and stop behind it |
| ListLiterals.ValueFromToken | core/stored_proc.c:251-330 | integers, with an optional minus, strings and the names TRUE and FALSE become values; integers are clamped to 64 bits |
| ConsensusNode.Node.AddBlockVote | plugins/no-leader/consensus.c:205-230 | a voter is stored and counted once per round and block |
| ConsensusNode.Node.StoreBlockVote | plugins/no-leader/consensus.c:237-265 | a vote for an unknown block is kept once |
| ConsensusNode.Node.TransferBlockVotes | plugins/no-leader/consensus.c:269-282 | an arriving block takes the stored votes for it |
| ConsensusNode.Node.DiscardUncommittedBlocks | plugins/no-leader/consensus.c:123-139 | the blocks above the current height stay, in order |
| ConsensusNode.Node.DiscardOldBlockVotes | plugins/no-leader/consensus.c:286-303 | the stored votes from the current height on stay, in order |
| ConsensusNode.Node.CheckBlockTransactions | plugins/no-leader/consensus.c:360-405 | the listed transactions that the mempool lacks are found, and asked for once per block |
| ConsensusNode.Node.MarkUsed | plugins/no-leader/consensus.c:499-507 | exactly the mempool transactions of the block are marked with its height |
| ConsensusNode.Node.DropPast | plugins/no-leader/consensus.c:509-517 | for each listed transaction the first one of a block at least two below is discarded, if there is one |
| ConsensusNode.Node.CommitBlock | plugins/no-leader/consensus.c:488-558 | the open database becomes the committed one and the block the tip; mempool, blocks and votes that are old with it are discarded; after a failure the block stays open without a database |
| ConsensusNode.Node.VoteOnBlock | plugins/no-leader/consensus.c:574-619 | the node's own vote is counted, remembered and broadcast, once |
| ConsensusNode.Node.LowestWait | plugins/no-leader/consensus.c:657-666 | the first candidate of least wait time |
| ConsensusNode.Node.SelectWinner | plugins/no-leader/consensus.c:655-685 | the search over candidates that fail their checks ends, with the excluded ones aside |
| ConsensusNode.Node.ChooseBlockToVote | plugins/no-leader/consensus.c:624-703 | the whole choice, from the guards to the check for a winner |
| ConsensusNode.Node.CanStillWin | plugins/no-leader/consensus.c:914-936 | whether some candidate would have more than half of the votes if all votes not yet counted were for it |
| ConsensusNode.Node.CheckForWinnerBlock | plugins/no-leader/consensus.c:857-943 | the node commits if and only if the first candidate with more than half of the votes of the round passes its checks, or such a candidate of round 1 after nobody could win round 0 any more and the node moved on |
| ConsensusNode.Node.OnNewBlock | plugins/no-leader/consensus.c:736-850 | an arriving block enters the list once, unless it is old |
| ConsensusNode.Node.OnBlockVote | plugins/no-leader/consensus.c:947-1019 | an arriving vote is stored or counted, once, and may decide the height |
| ConsensusNode.Node.ProcessNewTransaction | plugins/no-leader/transactions.c:465-493 | a transaction that is taken into the mempool is no longer asked for; if it was, and the wait is over, the node chooses again |
| ConsensusHandlers.VoteKeeps | plugins/no-leader/consensus.c:574-619 | a vote within the guards keeps one vote per voter, height and round |
| ConsensusHandlers.RoundChange | plugins/no-leader/consensus.c:913-941 | when no candidate a node knows can win round 0, so many voters have voted otherwise that no block can, known or unknown |
| ConsensusHandlers.CountedSize | plugins/no-leader/consensus.c:914-921 | the voters counted for different candidates are disjoint, so the total the code adds up is their number |
| ConsensusHandlers.CommitKeeps | plugins/no-leader/consensus.c:488-548 | a committed block had a majority of the votes cast at its height |
| ConsensusHandlers.CheckKeeps | plugins/no-leader/consensus.c:857-943 | checking for a winner keeps every node invariant, round change included |
| ConsensusHandlers.ChooseKeeps | plugins/no-leader/consensus.c:623-703 | choosing a block keeps every node invariant unless it re-enters round 0 after a round-1 vote, or enters round 1 while the wait lasts or a block could still win |
| ConsensusInvariant.WinnersAgree | plugins/no-leader/consensus.c:857-907 | two blocks that won at one height, in the same or in different rounds, are the same |
| ConsensusInvariant.DeadMeansNoMajority | plugins/no-leader/consensus.c:923-936 | after a round change no block has a round-0 majority |
| ConsensusQuorum.CommitsIff | plugins/no-leader/consensus.c:857-943 | the same of the handler as the runs use it, in numbers of votes |
| ConsensusQuorum.CommitsElected | plugins/no-leader/consensus.c:876-903 | the block it commits is the first one that more than half of the voters voted for |
| ConsensusQuorum.MajorityIff | plugins/no-leader/no-leader.c:31-35 | a majority is exactly more than half |
| ConsensusRuns.StepKeeps | plugins/no-leader/consensus.c:736-1017 | every event at any node keeps the invariants of all nodes |
| ConsensusRuns.Agreement | plugins/no-leader/consensus.c:857-907 | in every run in which no transaction arrives at a node that is exposed to it, any two nodes have the same block at every height both have committed |
| ConsensusRuns.CountersExact | plugins/no-leader/consensus.c:205-282 | in every run each vote counter is the number of distinct voters stored, and each of them cast that vote |
| ConsensusRuns.SecondVoteStarts | plugins/no-leader/consensus.c:908-941 | a round-1 vote is cast only by a handler that finds no round-0 winner and no block that can still win, and only with a candidate on the list |
| ConsensusRuns.RoundChangeSound | plugins/no-leader/consensus.c:913-941 | whenever a handler with a candidate on its list starts round 1, no block of that height, known or unknown, has or is counted to a round-0 majority at any node from its end on, in any continuation of any run |
| ConsensusRuns.SecondVoteEndsFirst | plugins/no-leader/consensus.c:913-941 | after one round-1 vote of any node no block of its height ever has a round-0 majority, in any continuation of any run |
| ConsensusChoice.LeastWaitSpec | plugins/no-leader/consensus.c:657-666 | the chosen candidate waits less than all before it and no longer than all behind it |
| ConsensusChoice.SelectsBest | plugins/no-leader/consensus.c:655-688 | the choice is the open block if it comes first, and it stays open, else the first of least wait time among those whose transactions are present and whose replay succeeds, with that replay open |
| ConsensusChoice.CastVoteKeepsBlocks | plugins/no-leader/consensus.c:680-698 | excluding blocks and splicing them back keeps the list the same multiset of blocks |
| ConsensusVotesTwice.VotesOnce | plugins/no-leader/consensus.c:56-74 | in the runs of Agreement no handler repeats a vote of its node in a round of a height |
| ConsensusVotesTwice.VotesTwiceIff | plugins/no-leader/consensus.c:56-74 | in every state of every such run the arrival of a transaction can, for some wait times, make a node vote twice in a round if and only if the node chooses because of it, voted in round 1 of that height last, and has a candidate without its round-0 vote that is open or passes its checks, and: for round 0, it has voted there itself; for round 1, that candidate lacks its round-1 vote as well and would not win by one more round-0 vote |
| ConsensusVotesTwice.SkippedFirstIff | plugins/no-leader/consensus.c:56-74 | for a node without a round-0 vote at that height, a second round-1 vote is possible if and only if some such candidate lacks both its votes, however the votes are counted |
| ConsensusVotesTwice.ClosedStays | plugins/no-leader/consensus.c:923-936 | once no block can still get a round-0 majority, no later vote or block changes that on the list of the node |
| ConsensusVotesTwice.SelectsAgain | plugins/no-leader/consensus.c:655-688 | a node that votes in round 0 and moves on in the same call selects the same block again, although the excluded blocks have moved to the end of the list |
| ConsensusDelivery.NoVoteLost | plugins/no-leader/consensus.c:205-303 | in every run a vote that has reached a node is counted for its block, or kept until the block arrives, as long as its height is open there |
| ConsensusDelivery.VoteArrivalSeen | plugins/no-leader/consensus.c:947-1019 | an arriving vote is counted or kept, and no other vote is lost by it |
| ConsensusDelivery.NewBlockKeepsVotes | plugins/no-leader/consensus.c:736-850 | an arriving block takes over every vote kept for it |
| ConsensusDelivery.CommitKeepsVotes | plugins/no-leader/consensus.c:488-558 | a commit drops no vote of an open height |
| ConsensusDisagreement.Disagreement | plugins/no-leader/consensus.c:56-74 | there is a run of three honest nodes, each judging and building blocks from its own database and mempool, in which one transaction arrives at an exposed node and two nodes commit different blocks at one height: the hypothesis of Agreement is needed |
| ConsensusDisagreement.TwiceInBothRounds | plugins/no-leader/consensus.c:56-74 | with a fourth voter who takes no part the same run leads to a state in which the arrival can make the node repeat its vote in round 0 and in round 1 |
| WaitTime.Interval | plugins/no-leader/block_producer.c:27-51 | wait intervals lie between a tenth of the block interval and half of it per voter, and are positive from an interval of 10 on |
| WaitTime.Monotone | plugins/no-leader/block_producer.c:43-46 | a smaller random output never waits longer |
| WaitTime.IntervalIs | plugins/no-leader/block_producer.c:37-46 | the wait is the given part of the way from a tenth of the block interval to half of it per voter, rounded down |
| WaitTime.NeverInverted | plugins/no-leader/block_producer.c:13-26 | nodes that count differently many voters never strictly invert the order of two outputs |
| WaitTime.SameChoice | plugins/no-leader/consensus.c:646-666 | nodes with the same candidates and no ties choose the same block, whatever their list order and voter counts |
| ProposerNode.Miner.ExecuteTransaction | plugins/no-leader/consensus.c:1101-1107 | a transaction succeeds if and only if its commands do and its node is known, and the database is then what they return; one that succeeds or fails is listed, a failed one marked, and uses its nonce; a failed one changes nothing else, a busy or refused one nothing at all |
| ProposerNode.Miner.UpdateLastNonceArray | plugins/no-leader/transactions.c:264-303 | the node's item is updated, or appended if there is none |
| ProposerNode.Miner.BuildLastNonceArray | plugins/no-leader/transactions.c:307-346 | exactly the authorized nodes with unused transactions are listed, with their last nonces |
| ProposerNode.Miner.IsNextNonce | plugins/no-leader/consensus.c:1035-1057 | the nonce follows the listed one, or is 1 for an unlisted node |
| ProposerNode.Miner.IncludeNext | plugins/no-leader/consensus.c:1098-1111 | the scan includes the first unused transaction with the next nonce that is not refused |
| ProposerNode.Miner.CreateNewBlock | plugins/no-leader/consensus.c:1061-1131 | the restart loop ends, the block is the specified one, and the mempool and, without a block, the database are as before |
| ProposerNode.Miner.VerifyBlock | plugins/no-leader/consensus.c:411-484 | a block is accepted if and only if its replay gives the recorded results and state; otherwise the database is rolled back |
| ProposerNode.Miner.CheckMempool | plugins/no-leader/transactions.c:350-383 | exactly the unused transactions with used-up nonces are removed |
| ProposerNode.SettlingKeepsNext | plugins/no-leader/consensus.c:499-522 | no unused transaction that the next block could take leaves the mempool with a commit |
| ProposerNode.Miner.StoreTransaction | plugins/no-leader/transactions.c:387-445 | a transaction enters the mempool if and only if it is new, authorized, verified and not old; ids stay distinct |
| ProposerProofs.TakesMaximalRuns | plugins/no-leader/consensus.c:1098-1111 | a transaction is taken if and only if it lies in its node's maximal run of unused nonces from the last one on, cut at the first refused one |
| ProposerProofs.OrderIndependent | plugins/no-leader/consensus.c:1098-1111 | the order of the mempool does not matter for what is taken |
| ProposerProofs.MarksRestored | plugins/no-leader/consensus.c:1112-1115 | every block_height mark is restored |
| ProposerProofs.FilledKeeps | plugins/no-leader/consensus.c:1098-1111 | each node's taken nonces go up by one, only unused transactions are taken, and nothing includable is left |
| ProposerChain.BuiltIsAccepted | plugins/no-leader/consensus.c:436-460 | a node in the same prior state that holds the transactions accepts every built block and reaches the builder's state |
| ProposerChain.AcceptsOwn | plugins/no-leader/consensus.c:436-460 | the builder's own mempool replays its block |
| ProposerChain.GapFreeIff | plugins/no-leader/consensus.c:1104-1108 | nonces taken in order leave no gap in the block if and only if no busy transaction of the node is followed by an included one |
| ProposerChain.BlockNonces | plugins/no-leader/consensus.c:1098-1111 | when results depend on the transaction only, a built block continues a node's last nonce without gap if and only if in the node's maximal run no busy transaction comes before one that is not; then the database counts along |
| ProposerChain.BusyLeavesGap | plugins/no-leader/consensus.c:1104-1108 | a concrete mempool in which a busy transaction loses its nonce to the next one |
| ProposerChain.ChainContinues | plugins/no-leader/consensus.c:488-548 | over a whole chain of built blocks a node's nonces continue its starting nonce, each once and in order, if and only if that holds of every block; then the database keeps count |
| ProposerData.BuiltData | plugins/no-leader/consensus.c:1098-1131 | the data of a built block is what executing its transactions in block order returns, those marked as failed having failed and left it alone |
| ProposerData.ReplayData | plugins/no-leader/consensus.c:436-460 | the data a replay ends in is what executing the transactions not marked as failed returns |
| ProposerPool.DropsOldFirst | plugins/no-leader/consensus.c:509-517 | of the mempool transactions of blocks at least two below the committed one the first ones are discarded, one for each listed transaction, and no others |
| ProposerPool.StaysIff | plugins/no-leader/transactions.c:350-383 | an unused transaction stays if and only if its nonce is beyond the last one of its node or its node is not known |
| ReplicatedHandlers.CommitSynced | plugins/no-leader/consensus.c:488-558 | a commit leaves the node with the database that its new chain leads to |
| ReplicatedHandlers.CheckSynced | plugins/no-leader/consensus.c:857-943 | the check for a winner keeps the database that of the chain, whether the block was open, is verified now, or fails |
| ReplicatedState.SameDatabase | plugins/no-leader/consensus.c:488-558 | in every run each node holds the database its own chain leads to, which is the one every node that is as far leads to at that height; at the same height databases and last nonces are equal |
| ReplicatedState.CommittedWereBuilt | plugins/no-leader/consensus.c:1061-1131 | in every run each committed block was built by create_new_block on the very database its predecessors lead to |
| ReplicatedState.CommittedData | plugins/no-leader/consensus.c:1061-1131 | in every run the data of every node is what executing the transactions of its chain returns, in block order, the failed ones left out |
| ReplicatedState.CommittedNonces | plugins/no-leader/consensus.c:1061-1131 | so over the committed chain of every node the nonces of each account continue without gap if and only if no block was built past a busy transaction, and the database counts them |
| ReplicatedState.NoNonceLost | plugins/no-leader/consensus.c:1061-1131 | when executions are never busy, no nonce is lost or repeated in any committed chain |
| ReplicatedState.CreatedIsAccepted | plugins/no-leader/consensus.c:411-484 | in every run a node just below the height of a created block that holds its transactions verifies it and reaches the database its header names |
| ReplicatedState.VerifyInPlace | plugins/no-leader/consensus.c:411-484 | verify_block run in place on the database and mempool of a node judges a block as the consensus model assumes of that node, and leaves the core with its database or as it was |
| ReplicatedState.ReplaySucceeds | plugins/no-leader/consensus.c:436-548 | replaying a chain of built blocks succeeds with any mempools that hold the transactions, and ends in the builders' state |
| Base58.Encode | common/base58.c:132-179 | the index wraps if and only if the value is at least 58^(size-1); otherwise the text or the room it needs is given and nothing else changes |
| Base58.AddByte | common/base58.c:150-156 | one round multiplies the digit buffer by 256 and adds a byte in place, or wraps exactly when a carry is left for index 0 |
| Base58.WriteText | common/base58.c:158-172 | leading zeros become the digit 1, and the text ends with NUL |
| Base58.Decode | common/base58.c:20-99 | decoding succeeds if and only if every character is a digit and the value is below 256^binsz; the output is the value padded to binsz, and nothing changes otherwise |
| Base58.AddDigit | common/base58.c:53-57 | one round multiplies the limbs by 58 and adds a digit in place, with the carry out |
| Base58.CarryMaskIsLossless | common/base58.c:54-56 | the 6-bit carry mask loses no bit |
| Base58.FitsIff | common/base58.c:58-61 | the two overflow tests accept exactly the values below 256^binsz |
| Base58.WriteBytes | common/base58.c:64-83 | the limbs are written big-endian, the first one partially |
| Base58.AlphabetInverse | common/base58.c:9-18 | the digit table and the digit string are inverse to each other |
| Base58RoundTrip.AlphabetIs | common/base58.c:130 | the digits are those of b58digits_ordered, in its order |
| Base58RoundTrip.RoundTrip | common/base58.c:20-179 | decoding the text of any non-empty byte string gives it back, leading zeros included, and the length as well unless 2^32 zeros lead |
| Base58RoundTrip.TextRoundTrip | common/base58.c:20-179 | encoding the reported bytes of a decoded text gives the text back |
| Base58RoundTrip.DecodesOnce | common/base58.c:20-99 | no two texts decode to the same bytes and size |
| Base58RoundTrip.SafeLengthIff | common/base58.c:142-156 | no input of a given length with a nonzero first byte wraps if and only if 256^n <= 58^(n*138/100) |
| Base58RoundTrip.SafeAt38 | common/base58.c:142-156 | 38 bytes with a nonzero first byte never wrap |
| Base58RoundTrip.SingleByte | common/base58.c:142-156 | a single byte wraps exactly from 58 on |
| Base58Address.AddressLength | common/base58.c:182-217 | every address has the 52 characters that the reader insists on |
| Base58Address.AddressToKey | common/base58.c:109-128 | an address leads back to its key |
| Base58Address.AddressBytes | common/base58.c:182-217 | behind an address are the version byte 0x42, the key, and the first four bytes of the hash of both |
| Base58Address.AcceptsExactlyAddresses | common/base58.c:109-128 | a text is accepted with a key if and only if it is the address of that key |
| Base58Address.SizeBeyondIff | common/base58.c:20-128 | the reported size exceeds a buffer of n bytes if and only if a text has some leading 1 characters, k in 32 bits, and k is above n or its value is at least 256^(n-k) |
| Base58Address.ReadsBeyond | common/base58.c:85-128 | it does for every text of 52 digits that starts with 1z |
| MessageFraming.ParseFrames | plugins/common/uv_msg_framing.c:49-73 | frames as they are sent parse into their payloads, with nothing left |
| MessageFraming.FrameIs | plugins/common/uv_msg_framing.c:49-73 | a frame is the length of the payload in four bytes, the most significant first, and the payload |
| MessageFraming.ChunkIndependence | plugins/common/uv_msg_framing.c:142-197 | however the bytes of valid frames are cut into reads, exactly the payloads are delivered, in order |
| MessageFraming.PartOfStream | plugins/common/uv_msg_framing.c:142-197 | after any part of a stream the complete frames were delivered and exactly the unfinished start of the next one is kept |
| MessageFraming.ParseResumes | plugins/common/uv_msg_framing.c:176-189 | parsing can stop anywhere and go on with the unfinished rest |
| MessageFraming.Receiver.Alloc | plugins/common/uv_msg_framing.c:98-140 | the region offered for reading is non-empty, inside the allocation, and never beyond the current frame; it is refused exactly when the allocator gives too little |
| MessageFraming.Receiver.Realloc | plugins/common/uv_msg_framing.c:85-96 | a larger buffer keeps the unfinished frame |
| MessageFraming.Receiver.Read | plugins/common/uv_msg_framing.c:142-197 | a read delivers the frames that are complete and keeps the unfinished rest at the front of the buffer |
| MessageFraming.Receiver.ReadError | plugins/common/uv_msg_framing.c:158-163 | after a read error the receiver is usable again exactly if no frame was unfinished |
| MessageFraming.Session | plugins/common/uv_msg_framing.c:98-197 | driving region and read over a whole stream, cut wherever the offered regions and the arriving bytes cut it, delivers exactly the payloads in order |
| MessageFraming.ErrorAfter | plugins/common/uv_msg_framing.c:98-197 | a connection that fails after any part of a stream has come, however it was cut, is usable again if and only if no frame was unfinished |
| MessageFraming.ErrorInFrame | plugins/common/uv_msg_framing.c:98-197 | after a part of one frame, of any length, it is usable again if and only if nothing had come |
| GrowableArray.Array.InsertEx | common/array.c:169-276 | insertion, sorted or at any place, changes the items as specified; the capacity doubles or makes room; capacity and number of items are stored in 16 bits |
| GrowableArray.InsertedIs | common/array.c:246-272 | place by place: the new item, those before it as they were, those behind it one further unless one is overwritten, zeros in between |
| GrowableArray.Array.Find | common/array.c:116-136 | the first equal item, or none |
| GrowableArray.Array.Remove | common/array.c:142-166 | the first equal item is removed and the order kept |
| PageCollection.InsertIsSorted | plugins/no-leader/state_update.c:548-558 | sorted insertion keeps the pages strictly ascending and adds exactly one |
| PageCollection.Collect | plugins/no-leader/state_update.c:639-646 | the array is strictly ascending and holds exactly the pages of the list, through every doubling, if and only if at most one insertion follows the 32768th distinct page |
| PageCollection.FewPagesFit | plugins/no-leader/state_update.c:639-646 | fewer than 32768 distinct pages are always collected |
| PageCollection.ManyPagesDoNotFit | plugins/no-leader/state_update.c:639-646 | more than 32769 distinct pages are never collected: the stored capacity wraps to 0 |
| PageCollection.FirstPagesDoNotFit | plugins/no-leader/state_update.c:639-646 | the first 32770 pages of a database are such a list |
| PageCollection.AscendingUnique | plugins/no-leader/state_update.c:639-646 | the result does not depend on the order of the list |
| LinkedList.Add | common/linked_list.c:12-28 | adding an item or a whole chain appends it |
| LinkedList.Prepend | common/linked_list.c:30-40 | prepending puts the item first |
| LinkedList.Remove | common/linked_list.c:42-62 | the item is unlinked if present, the rest stays in order, and its next pointer is cleared |
| LinkedList.SetAside | plugins/no-leader/consensus.c:681-682 | moving a block to the excluded list keeps both lists and all blocks |
| LinkedList.SameItems | common/linked_list.c:8-28 | a pointer leads through one sequence of items only |
| Sha256.Context.Update | common/sha256.c:99-112 | an update of any length appends to the message hashed so far |
| Sha256.Context.Final | common/sha256.c:114-158 | the digest of everything given to any split into updates is the fold over the padded message of FIPS 180-4, section 5.1.1, the extra block included, its eight words in order and each with the most significant byte first |
| Sha256.Context.Pad | common/sha256.c:118-132 | the bit 1 and the zeros are appended, in one block or in two |
| Sha256.Sha256 | common/sha256.c:160-166 | one call is the digest of its data, byte for byte as above |
| Sha256.PaddedIs | common/sha256.c:118-144 | the padded message is whole blocks: the message, 0x80, fewer than 64 zeros, and its length in bits with the most significant byte first |
| Sha256.InitialIsRoots | common/sha256.c:85-97 | the initial words are the fractional parts of the square roots of the first eight primes, as FIPS 180-4, section 5.3.3, defines them |
| Sha256.PaddingInjective | common/sha256.c:118-144 | messages below 2^61 bytes are padded to different blocks |
| Checksum.StepIsBits | common/checksum.c:44-47 | one table step feeds the eight bits of a byte into the register |
| Checksum.LinearShift | common/checksum.c:22-25 | the shift with the polynomial is linear |
| Checksum.Crc32.Init | common/checksum.c:13-32 | every table entry is eight shifts of its index, filled once |
| Checksum.Crc32.Compute | common/checksum.c:34-52 | the table-driven checksum is the bit-by-bit CRC of RFC 1952, section 8 |
| Checksum.Crc32.ComputeReversed | common/checksum.c:54-72 | crc32rev is the CRC of the reversed buffer |
| Checksum.KnownValues | common/checksum.c:34-52 | four known checksums, which fix the start and the end value, the order of the bits and the polynomial |
| Bits.XorUndoes | core/xrc4.c:91 | applying the same key byte twice gives the text back |
| Xrc4.CoprimeIsOdd | core/xrc4.c:13-23 | the step is odd and differs from the last one used |
| Xrc4.VisitsAll | core/xrc4.c:32-35 | an odd step visits every index |
| Xrc4.Init | core/xrc4.c:26-46 | whatever the box held, it becomes a permutation that depends only on the key |
| Xrc4.StreamKeeps | core/xrc4.c:86-93 | the working box stays a permutation |
| Xrc4.KeyRounds | core/xrc4.c:40-44 | every round of the key schedule moves both indices, the second by the key byte at the first, and swaps |
| Xrc4.IvRounds | core/xrc4.c:73-77 | every round with the IV does, with the IV byte at the second index, or the byte of the box without an IV |
| Xrc4.StreamRounds | core/xrc4.c:86-93 | every byte of the key stream takes one more round and is the byte of the box at the sum of the two that were swapped |
| Xrc4.Crypt | core/xrc4.c:49-95 | the text is combined with a key stream that depends only on box, IV and counter, also when both buffers are the same |
| Xrc4.UndoesItself | core/xrc4.c:49-95 | encrypting twice with the same box, IV and counter gives the text back, for every length |
| Xrc4.BasicCrypt | core/xrc4.c:98-102 | the same with the box and IV from one key |

## Left out

- StoredProcMachine.Procedure.Execute: takes a limit on the number of rounds, because the interpreter need not end; the lemmas CompilerCorrect and DivergenceCorrect have no such limit.
- StoredProcMachine.Procedure.Run: the same limit; what ends within it is the meaning of the body.
- ConsensusNode.Node: a block is a value in the list `newBlocks` and is identified by its height and id, so two pointers to one block are not modelled; the list operations on pointers are in LinkedList.
- ConsensusRuns.Agreement: runs without state updates, crashes and forged votes; votes are taken as cast by the node they name in the round they name (the round is not signed in the source), and the voter set of a height is fixed and known to all. No transaction arrives at a node that is exposed to it; Disagreement shows that this is needed.
- ConsensusModel.TakesIn: the verification of a transaction's signature is assumed to have passed. Requests for transactions of old blocks, which a full node makes while it downloads its history, are left out.
- ConsensusNode.Node.CheckMempool: goes over all authorizations at once; ProposerNode.Miner.CheckMempool goes over them one by one, to the same result.
- ReplicatedState.SameDatabase: a block that arrives was created by a node of the run, and headers name the database exactly.
- ConsensusRuns.Enabled: a created block has an id that is not on the node's list; ids are signatures.
- ProposerModel.State: the set of authorized nodes is fixed. Special transactions, which can add nodes while a block is executed, are left out; so are the changes they make to the last nonces.
- ProposerChain.BlockNonces: whether a transaction is refused or busy depends on the transaction only, not on the database; so do ChainContinues, CommittedNonces and TakesMaximalRuns.
- ProposerChain.ChainContinues: for blocks built by create_new_block; verify_block itself does not check nonces. Transaction ids are pairs, not packed into 64 bits.
- ProposerNode.Miner.RunInSavepoint: the commands of one transaction are one step with an outcome; saving the transaction on full nodes and failing savepoints are left out.
- ProposerModel.Accepts: comparing the modified pages and the state hash is comparing the states, so equal hashes of different states are left out.
- Base58.Encode: what the encoder writes after its index has wrapped is undefined; the model stops there. Lengths are unbounded, so `size_t` overflow is left out.
- Base58Address.CheckBytes: what base58_check finds behind the buffer is undefined; the model takes it as a wrong checksum, and any other value leads to no key either.
- StoredProcFlat.FetchItem: FOREACH @x IN @x, where the source copies from the list it has just released, is given the meaning of copying before.
- GrowableArray.Array.InsertEx: appending to an array of capacity 0, which doubles to no room, is outside the defined behaviour of C. The product of places and item size is not bounded.
- MessageFraming.Receiver.Read: for streams whose lengths a sender can write; a receiver of other lengths leaves the defined behaviour of C.
- Sha256.Context: over any compression function; sha256_transform itself is not modelled.
- WaitTime.Interval: exact arithmetic in place of doubles, and no integer overflow of the upper bound.
- ListLiterals.ReadItem: float and blob constants; the characters inside a token.
- Checksum.Crc32: the table is an object, not a global.
- Liveness of consensus: there is no third voting round.
- State-update page transfer as a protocol, beyond collecting the pages.
- The SQL engine, pager, expression evaluation and prepared statements: an arbitrary deterministic engine with state stands for them.
- Signatures, VRF proofs, sockets, timers, discovery and peers: a timer is an enabled event, checks of proofs and signatures are assumed to have passed.
- Rollback of a failed procedure call: RAISE leaves through the releasing exit, so no rollback law is stated.
- The savepoints and parameters of a procedure call, and the parsing of everything but control flow and lists.
- Memory exhaustion, tracing, codec re-keying and ChaCha.
