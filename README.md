# LLD-Practice in Dafny

A Dafny model of the object-oriented design exercises in LLD-Practice, one
module per exercise, each proved against its own specification:

- **Vending machine** (`vending.dfy`, module `VendingMachine`): racks keyed by rack
  number, the inventory, and the machine's three states NoMoney, MoneyInserted and
  Dispense. One call on the machine is also written as a function on a snapshot of the
  machine's state (`InsertMoneyStep`, `SelectProductStep`, `Run`). The `Machine` class
  is proved to follow those functions. The lemmas state the session rules and the
  conservation of money.
- **ATM** (`atm.dfy`, module `ATMDesign`): the greedy $100/$50/$10 cash dispenser,
  bank accounts whose withdrawal and transfer guards are strict, the ATM card's PIN,
  and the session state machine Idle → HasCard → SelectionOption → operation.
- **Chess** (`chess.dfy`, module `ChessGame`): the six piece movement rules, the
  path-blocking scan, the board reset, the text form of a move, and the console game loop
  (resignation, format check, ownership check, validation, the move, the 50-move draw).
- **Jigsaw puzzle** (`jigsaw.dfy`, module `JigsawPuzzle`): pieces with four sides,
  corner/edge/middle classification, clockwise rotation, the edge-matching rule, guarded
  insertion, and the greedy solver.
- **Meeting scheduler** (`meetings.dfy`, module `MeetingScheduler`): closed intervals,
  rooms with bookings, per-user calendars, meetings with an RSVP status per participant,
  and the scheduler that books the first free room, records the meeting in every
  calendar, collects the answers and cancels meetings.
- **Locker service** (`locker.dfy`, module `AmazonLockerService`): lockers holding at
  most one package, one-time codes that expire after whole days, locations, and the
  service's ordered searches.
- **Online shopping** (`shopping.dfy`, module `AmazonOnlineShoppingSystem`): products,
  cart items, the cart's running total, the order's item check and the product search.
- **Stack Overflow** (`stackoverflow.dfy`, module `StackOverflow`): tag reference counts
  and the question index by tag name, author name and lower-cased title word.
- **Hotel** (`hotel.dfy`, module `HotelManagement`) and **restaurant**
  (`restaurant.dfy`, module `ResturantManagement`): room check-in and check-out, the room
  search, and table reservations.
- **Airline** (`airline.dfy`, module `AirLineManagement`): the flight catalogue keyed
  by route and times, and the crew schedules an administrator assigns.
- **Design patterns** (`patterns.dfy`, modules `Singleton`, `Factory`, `Builder`): the
  logger singleton, the vehicle factory and the car builder.
- `common.dfy` has the shared pieces:
  - `Optional`: `Option` stands for a Java `null` value.
  - `Text`: the `java.lang.String` operations the exercises use, on ASCII: `toLowerCase`, `equalsIgnoreCase`, `trim`, `split("\\s+")`, and `Long.toString`.
  - `Lists`: list and `Map<K, List<V>>` helpers.

Conventions:

- Money is held in integer cents. The exception is the ATM's own cash balance and bill
  counts, which the Java code keeps in whole dollars and whole bills.
- Dates are integer milliseconds, and "now" is a parameter.
- A class whose fields the Java code updates in place is a Dafny `class`. A value the
  Java code never changes is a `datatype`.
- Java `null` is `Option` for values and a nullable reference (`T?`) for objects.
- An error the Java code signals with an exception or a printed message is a result value.

The model follows the code as written in these places:

- The vending inventory's `addRack` replaces a rack already stored under the same number.
  It does not refuse the duplicate.
- The hotel search ignores the date and the duration.
- The restaurant's table search is a placeholder that finds nothing.
- The locker's `removePackage` does not look at the code it is given.

## Model

| member | source | states |
|---|---|---|
| VendingMachine.StepsKeepIdle | src/educative/VendingMachine/VendingMachine.java:41-42 | Both public calls keep the between-calls invariant: no rack selected, no money held in NoMoney, and a rack that was never loaded holds nothing. |
| VendingMachine.InsertMoneyAccumulates | src/educative/VendingMachine/NoMoneyState.java:5-10 | Outside Dispense, inserting money adds exactly that amount, leaves the stock alone, ends in MoneyInserted and reports the new total. |
| VendingMachine.SelectionEndsSession | src/educative/VendingMachine/MoneyInsertedState.java:12-33 | Every selection made with money inserted ends the session, refund or sale: NoMoney, nothing held, no rack selected. |
| VendingMachine.SelectionOutcomes | src/educative/VendingMachine/MoneyInsertedState.java:12-33 | A selection either refunds the whole amount and keeps every rack, or dispenses one unit of the selected rack's product, returns what was paid beyond the price as change, and keeps every other rack. |
| VendingMachine.DispensesIffPaidAndStocked | src/educative/VendingMachine/MoneyInsertedState.java:14-32 | A selection dispenses exactly when the rack exists, holds at least one unit and the amount covers the price. |
| VendingMachine.RejectedSelectionChangesNothing | src/educative/VendingMachine/NoMoneyState.java:13-15 | With no money, or while dispensing, a selection changes nothing and reports "insert money first" or "busy". |
| VendingMachine.Run | src/educative/VendingMachine/VendingMachine.java:41-42 | Any sequence of calls keeps the between-calls invariant and gives one notice per call. |
| VendingMachine.MoneyIsConserved | src/educative/VendingMachine/VendingMachine.java:43-56 | Over any run, money held at the start plus money inserted equals money still held plus every refund, every price kept and every change returned. |
| VendingMachine.InsertionsAddUp | src/educative/VendingMachine/VendingMachine.java:36 | Repeated insertions add up to their sum, leave the stock alone, and end in MoneyInserted unless there were none. |
| VendingMachine.Rack.constructor | src/educative/VendingMachine/Rack.java:8-11 | A new rack has its number, no product and quantity 0, and is empty. |
| VendingMachine.Rack.LoadProduct | src/educative/VendingMachine/Rack.java:16-19 | Binds the product and adds the quantity, of any sign, to the count. |
| VendingMachine.Rack.DispenseOne | src/educative/VendingMachine/Rack.java:25-27 | Takes one unit out when the count is positive; otherwise nothing changes. The product stays. |
| VendingMachine.Inventory.Stock | src/educative/VendingMachine/Inventory.java:6 | The inventory seen as values has exactly one slot per stored rack number. |
| VendingMachine.Inventory.constructor | src/educative/VendingMachine/Inventory.java:6 | A new inventory holds no rack. |
| VendingMachine.Inventory.AddRack | src/educative/VendingMachine/Inventory.java:8-10 | Stores the rack under its own number, replacing any rack stored there; every other number keeps its rack. |
| VendingMachine.Inventory.GetRack | src/educative/VendingMachine/Inventory.java:12-14 | Null exactly for an unknown number; otherwise the rack stored under it, which carries that number. |
| VendingMachine.Inventory.AllRacks | src/educative/VendingMachine/Inventory.java:16-18 | Exactly the stored racks: every rack kept under some number is in it, and nothing else is. When every rack is stored under its own number, each returned rack is the one stored under that number. |
| VendingMachine.Machine.ValidStock | src/educative/VendingMachine/VendingMachine.java:10-13 | In a valid machine, a rack that was never loaded holds nothing. |
| VendingMachine.Machine.constructor | src/educative/VendingMachine/VendingMachine.java:6-20 | A new machine is in NoMoney with nothing held, no rack selected and an empty inventory. |
| VendingMachine.Machine.AddToCurrentAmount | src/educative/VendingMachine/VendingMachine.java:36 | Adds the amount to the money held; the state and the selection stay. |
| VendingMachine.Machine.InsertMoney | src/educative/VendingMachine/VendingMachine.java:41 | The new state and the notice are those of `InsertMoneyStep` on the old state. |
| VendingMachine.Machine.SelectProduct | src/educative/VendingMachine/VendingMachine.java:42 | The new state and the notice are those of `SelectProductStep` on the old state; no rack object is added or removed. |
| VendingMachine.Machine.DispenseProduct | src/educative/VendingMachine/VendingMachine.java:43-52 | The new state and the notice are those of `DispenseStep`: one unit leaves the selected rack, positive change is reported, and the session resets. |
| VendingMachine.Machine.Refund | src/educative/VendingMachine/VendingMachine.java:53-56 | Reports the whole amount held as refunded and resets the session; no rack changes. |
| VendingMachine.Machine.Reset | src/educative/VendingMachine/VendingMachine.java:58-62 | Nothing held, no rack selected, NoMoney; the stock stays. |
| VendingMachine.Machine.AddRack | src/educative/VendingMachine/VendingMachine.java:65 | The rack's slot replaces the one under its number; nothing else changes. |
| VendingMachine.Machine.LoadProduct | src/educative/VendingMachine/VendingMachine.java:66-74 | Loads exactly when the rack number is known: the product is bound and the count grows by the quantity. An unknown number changes nothing. |
| VendingMachine.NoMoneyInsertMoney | src/educative/VendingMachine/NoMoneyState.java:5-10 | Adds the amount, moves to MoneyInserted and reports the new total. |
| VendingMachine.NoMoneySelectProduct | src/educative/VendingMachine/NoMoneyState.java:13-15 | Asks for money first and changes nothing. |
| VendingMachine.MoneyInsertedInsertMoney | src/educative/VendingMachine/MoneyInsertedState.java:5-9 | Adds the amount and stays in MoneyInserted. |
| VendingMachine.MoneyInsertedSelectProduct | src/educative/VendingMachine/MoneyInsertedState.java:12-33 | Refunds on a missing or empty rack or an amount below the price; otherwise selects the rack and dispenses. This is the selection step on the old state. |
| VendingMachine.DispenseInsertMoney | src/educative/VendingMachine/DispenseState.java:5-7 | Reports busy and changes nothing. |
| VendingMachine.DispenseSelectProduct | src/educative/VendingMachine/DispenseState.java:10-12 | Reports busy and changes nothing. |
| ATMDesign.GreedySplit | src/educative/ATMDesign/CashDispenser.java:8-14 | The greedy split never exceeds the amount or the bills available, never hands out a negative count, and leaves a remainder with the amount's last digit. |
| ATMDesign.DispenseOutcome | src/educative/ATMDesign/CashDispenser.java:5-27 | A payout happens only for a positive amount within the ATM's balance. The bills then total exactly the amount, and neither they nor the bills left are negative. |
| ATMDesign.NonMultipleOfTenRefused | src/educative/ATMDesign/CashDispenser.java:8-15 | An amount that is not a multiple of $10 is never paid out. |
| ATMDesign.EnoughTensAlwaysPays | src/educative/ATMDesign/CashDispenser.java:8-15 | With enough $10 bills, every positive multiple of $10 within the ATM's balance is paid out. |
| ATMDesign.WithdrawLeavesPositive | src/educative/ATMDesign/BankAccount.java:17 | Whatever passes the strict withdrawal guard leaves a strictly positive, strictly smaller balance. |
| ATMDesign.BankAccount.constructor | src/educative/ATMDesign/BankAccount.java:7-10 | Stores the number and the opening balance; the kind fixes the limit. |
| ATMDesign.BankAccount.Withdraw | src/educative/ATMDesign/BankAccount.java:16-22 | Succeeds exactly when 0 < amount < balance and amount < limit. Then it debits the amount and leaves a positive balance; otherwise the balance stays. |
| ATMDesign.BankAccount.Transfer | src/educative/ATMDesign/BankAccount.java:24-31 | The same guard as `withdraw`. Between two accounts the sum of the balances never changes; a transfer to the same account leaves it as it was; a refused one changes neither account. |
| ATMDesign.ATMCard.constructor | src/educative/ATMDesign/ATMCard.java:11-16 | Stores the card's fields; the given PIN is accepted. |
| ATMDesign.ATMCard.SetPin | src/educative/ATMDesign/ATMCard.java:22-24 | Afterwards exactly the new PIN is accepted. |
| ATMDesign.User.constructor | src/educative/ATMDesign/User.java:7-10 | Pairs the card with the account. |
| ATMDesign.StatusOfInjective | src/educative/ATMDesign/ATM.java:6-7 | The status tag and the state object determine each other. |
| ATMDesign.ATM.constructor | src/educative/ATMDesign/ATM.java:24-32 | Starts Idle, with consistent status and state, no session, and no cash or bills. |
| ATMDesign.ATM.InitializeATM | src/educative/ATMDesign/ATM.java:42-52 | Loads the balance and the bill counts and starts over in Idle with no user, card or authentication. |
| ATMDesign.ATM.SetActiveUser | src/educative/ATMDesign/ATM.java:73 | Sets the user; nothing else changes. |
| ATMDesign.ATM.InsertCard | src/educative/ATMDesign/ATMState.java:5 | In Idle with a readable card, moves to HasCard holding the card; in any other state it does nothing. |
| ATMDesign.ATM.AuthenticatePin | src/educative/ATMDesign/ATMState.java:6 | In HasCard with the right PIN, authenticates and moves to SelectionOption; otherwise nothing changes. |
| ATMDesign.ATM.ReturnCard | src/educative/ATMDesign/ATMState.java:13 | In HasCard, drops the card and the authentication and moves to Idle; otherwise nothing changes. |
| ATMDesign.ATM.SelectOperation | src/educative/ATMDesign/ATMState.java:7 | In SelectionOption, moves to the chosen operation; Cancel and every other state change nothing. |
| ATMDesign.ATM.CashWithdrawal | src/educative/ATMDesign/ATMState.java:8 | In the withdrawal state, runs the withdrawal handler; otherwise nothing changes. |
| ATMDesign.ATM.TransferMoney | src/educative/ATMDesign/ATMState.java:10 | In the transfer state, runs the transfer handler with its guard. The user's account loses the amount and the target gains it when the transfer succeeds; neither moves on a refusal, and a transfer to the user's own account leaves its balance as it was. Outside the transfer state nothing moves. |
| ATMDesign.ATM.ChangePin | src/educative/ATMDesign/ATMState.java:11 | In the change-PIN state, the new PIN becomes the only valid one; otherwise nothing changes. |
| ATMDesign.ATM.DisplayBalance | src/educative/ATMDesign/ATMState.java:9 | In the balance state, shows the account's balance; otherwise shows nothing and changes nothing. |
| ATMDesign.CashDispenser.DispenseCash | src/educative/ATMDesign/CashDispenser.java:5-27 | Pays out exactly when `DispenseOutcome` does: the bill counts drop by the split and the balance by the amount. Otherwise nothing changes. |
| ATMDesign.IdleInsertCard | src/educative/ATMDesign/IdleState.java:6-15 | A readable card is held and the ATM moves to HasCard; an unreadable one changes nothing. |
| ATMDesign.HasCardAuthenticatePin | src/educative/ATMDesign/HasCardState.java:6-15 | The right PIN authenticates and moves to SelectionOption; a wrong one changes nothing. |
| ATMDesign.HasCardReturnCard | src/educative/ATMDesign/HasCardState.java:18-24 | Drops the card and the authentication and moves to Idle. |
| ATMDesign.SelectionOptionSelectOperation | src/educative/ATMDesign/SelectionOptionState.java:5-28 | Each operation gets its own state and status. Cancel calls the inherited `returnCard`, which does nothing. |
| ATMDesign.WithdrawalAsWritten | src/educative/ATMDesign/CashWithdrawalState.java:10-13 | The handler as written either debits the full amount or nothing, and never adds cash to the ATM. A request failing the line-10 test (at most the balance, the limit and the ATM's cash), or one the dispenser cannot pay, changes nothing. Cash leaves the ATM only as the amount truncated to whole dollars. The account is debited only under `withdraw`'s strict test, and only together with that payout. |
| ATMDesign.PayoutWithoutDebit | src/educative/ATMDesign/CashWithdrawalState.java:10-13 | Asking for the whole balance, or exactly the limit, pays the cash out and leaves the balance as it was. |
| ATMDesign.PayoutWithoutDebitExample | src/educative/ATMDesign/CashWithdrawalState.java:10-13 | A $500 saving balance asking for $500: $500 leaves the ATM and the balance stays $500. |
| ATMDesign.WithdrawalCorrected | src/educative/ATMDesign/CashWithdrawalState.java:10-13 | The corrected handler debits exactly what the ATM pays out, and debits only what passes `withdraw`'s guard. |
| ATMDesign.CorrectedWithdrawalConserves | src/educative/ATMDesign/CashWithdrawalState.java:10-13 | The corrected withdrawal changes nothing, or it debits the amount and hands out non-negative bills worth exactly that many dollars. |
| ATMDesign.CashWithdrawalWithdraw | src/educative/ATMDesign/CashWithdrawalState.java:7-25 | The account and the ATM end as `WithdrawalAsWritten` says, and the ATM returns to SelectionOption. |
| ATMDesign.TransferMoneyTransfer | src/educative/ATMDesign/TransferMoneyState.java:7-26 | Transfers exactly when the amount is within the balance and passes the strict guard. Between two accounts both balances move by the amount; a refusal changes neither, and a transfer to the same account leaves its balance as it was. Ends in SelectionOption. |
| ATMDesign.ChangePinChangePin | src/educative/ATMDesign/ChangePinState.java:6-13 | The new PIN becomes the only valid one; ends in SelectionOption. |
| ATMDesign.BalanceInquiryDisplayBalance | src/educative/ATMDesign/BalanceInquiryState.java:6-11 | Shows the active account's balance; ends in SelectionOption. |
| ChessGame.AlongOnBoard | src/educative/ChessGame/Chessboard.java:35-45 | Every square the scan visits between two aligned squares is on the board, and it reaches the end square exactly at the last step. |
| ChessGame.AdjacentNeverBlocked | src/educative/ChessGame/Chessboard.java:39-43 | Neighbouring squares, and a square and itself, are never blocked. |
| ChessGame.PathBlockedIgnoresEnds | src/educative/ChessGame/Chessboard.java:39-43 | Only squares strictly between start and end affect the answer. |
| ChessGame.PawnOnlyAdvances | src/educative/ChessGame/Pawn.java:5-22 | A pawn moves forward one row, or two from its start row over an empty square, and never onto its own colour. It changes column only by capturing. |
| ChessGame.QueenIsRookOrBishop | src/educative/ChessGame/Queen.java:5-14 | A queen moves exactly where a rook or a bishop of its colour could. |
| ChessGame.ZeroLengthMoveRefused | src/educative/ChessGame/ChessMoveController.java:4-6 | No piece can move onto its own square. |
| ChessGame.NeverCapturesOwnColour | src/educative/ChessGame/ChessMoveController.java:4-6 | Every accepted move lands on an empty square or an opposing piece. |
| ChessGame.KnightAndKingAreLocal | src/educative/ChessGame/Knight.java:5-12 | Knight and king moves depend only on the target square. |
| ChessGame.SlidersDoNotJump | src/educative/ChessGame/Rook.java:5-13 | A rook, bishop or queen is stopped by any piece strictly between start and end. |
| ChessGame.InitialPositionSymmetric | src/educative/ChessGame/Chessboard.java:13-34 | The reset position is mirror-symmetric with colours swapped. Rows 3 to 6 are empty, white holds rows 1 and 2, and kings and queens stand on files e and d. |
| ChessGame.BackRankHemmedIn | src/educative/ChessGame/Chessboard.java:24-33 | In the starting position no back-rank piece other than a knight can move. |
| ChessGame.Chessboard.constructor | src/educative/ChessGame/Chessboard.java:6-10 | A new board has every square empty. |
| ChessGame.Chessboard.GetBox | src/educative/ChessGame/Chessboard.java:11 | The square read at a position is the board's contents at that row and column. |
| ChessGame.Chessboard.ResetBoard | src/educative/ChessGame/Chessboard.java:13-34 | Afterwards the board is exactly the starting position. |
| ChessGame.Chessboard.ClearBoard | src/educative/ChessGame/Chessboard.java:15-17 | Every square becomes empty. |
| ChessGame.Chessboard.PlacePawns | src/educative/ChessGame/Chessboard.java:19-22 | White pawns fill rank 2 and black pawns rank 7; every other square stays. |
| ChessGame.Chessboard.PlaceBackRanks | src/educative/ChessGame/Chessboard.java:24-33 | Both back ranks hold their starting pieces; ranks 2 to 7 stay. |
| ChessGame.Chessboard.PlaceBackRank | src/educative/ChessGame/Chessboard.java:24-33 | One back rank gets rook, knight, bishop, queen, king, bishop, knight, rook of one colour; other rows stay. |
| ChessGame.Chessboard.MovePiece | src/educative/ChessGame/ChessGame.java:67-69 | The piece is put on the end square, then the start square is emptied; nothing else changes. |
| ChessGame.Chessboard.IsPathBlocked | src/educative/ChessGame/Chessboard.java:35-45 | The walk from start toward end reports exactly whether a square strictly between them holds a piece. |
| ChessGame.Player.constructor | src/educative/ChessGame/Player.java:7-10 | Stores the name and the side. |
| ChessGame.ParseSquare | src/educative/ChessGame/ChessGame.java:51-52 | A file letter a-h and a rank digit 1-8 name a square on the board. |
| ChessGame.MoveTextRoundTrip | src/educative/ChessGame/ChessGame.java:47-52 | Writing a move and parsing it back gives the same squares, and every well-formed text is some move's text. |
| ChessGame.ResignationGivesOpponentTheWin | src/educative/ChessGame/ChessGame.java:41-46 | "resign", in any case and with surrounding spaces, gives the other side the win and leaves the board and the history unchanged. |
| ChessGame.PlayStepOutcomes | src/educative/ChessGame/ChessGame.java:47-79 | A line is refused with nothing changed, or it moves one of the current player's pieces. The start square empties, only the two squares change, the capture and the move are recorded, and the turn passes, unless the history now exceeds 50 moves, which draws the game. |
| ChessGame.PlayLines | src/educative/ChessGame/ChessGame.java:39-80 | Reading lines keeps a well-formed board, and a finished game ignores further input. |
| ChessGame.ChessGame.constructor | src/educative/ChessGame/ChessGame.java:15-25 | A new game is active, white to move, on the starting position, with no history. |
| ChessGame.ChessGame.PlayTurn | src/educative/ChessGame/ChessGame.java:40-79 | One pass of the loop changes the game exactly as `PlayStep` says. |
| ChessGame.ChessGame.Play | src/educative/ChessGame/ChessGame.java:36-81 | Reading lines changes the game as `PlayLines` says, and stops early only when the game is over. |
| JigsawPuzzle.NoFlatIffZeroCount | src/educative/JigsawPuzzle/Main.java:61-66 | No side is flat exactly when the flat count is zero. |
| JigsawPuzzle.Rotated | src/educative/JigsawPuzzle/Main.java:69-71 | One clockwise rotation moves the last side to the front and shifts the others by one. |
| JigsawPuzzle.RotationKeepsFlatCount | src/educative/JigsawPuzzle/Main.java:69-71 | Rotating keeps the number of flat sides. |
| JigsawPuzzle.TurningKeepsFlatCount | src/educative/JigsawPuzzle/Main.java:69-71 | Any number of rotations keeps the number of flat sides. |
| JigsawPuzzle.FourTurnsRestore | src/educative/JigsawPuzzle/Main.java:69-71 | Four rotations restore a four-sided piece. |
| JigsawPuzzle.MatchEdgesSymmetric | src/educative/JigsawPuzzle/Main.java:181-185 | Edge matching is symmetric. |
| JigsawPuzzle.MatchEdgesMeaning | src/educative/JigsawPuzzle/Main.java:181-185 | Two edges match exactly when both are flat, or they are an indentation and an extrusion. |
| JigsawPuzzle.Piece.constructor | src/educative/JigsawPuzzle/Main.java:31-36 | The sides are top, right, bottom, left in that order. |
| JigsawPuzzle.Piece.CheckCorner | src/educative/JigsawPuzzle/Main.java:43-49 | A corner has exactly two flat sides. |
| JigsawPuzzle.Piece.CheckEdge | src/educative/JigsawPuzzle/Main.java:52-58 | An edge piece has exactly one flat side. |
| JigsawPuzzle.Piece.CountFlat | src/educative/JigsawPuzzle/Main.java:44-47 | The loop counts the flat sides. |
| JigsawPuzzle.Piece.CheckMiddle | src/educative/JigsawPuzzle/Main.java:61-66 | A middle piece has no flat side. |
| JigsawPuzzle.Piece.RotateClockwise | src/educative/JigsawPuzzle/Main.java:69-71 | The sides become their clockwise rotation. |
| JigsawPuzzle.ClassificationExclusive | src/educative/JigsawPuzzle/Main.java:43-66 | Corner, edge and middle exclude each other, and rotation keeps a piece's class. |
| JigsawPuzzle.FillingKeepsPieces | src/educative/JigsawPuzzle/Main.java:104 | Filling an empty cell keeps every placed piece and adds the new one. |
| JigsawPuzzle.Puzzle.constructor | src/educative/JigsawPuzzle/Main.java:79-86 | An n-by-n board of empty cells and the given free pieces; a negative n gives a board with no rows. |
| JigsawPuzzle.Puzzle.InsertPiece | src/educative/JigsawPuzzle/Main.java:97-106 | An out-of-range position is refused, then an occupied one, each changing nothing. Otherwise the piece fills that one cell and its first occurrence leaves the free list. |
| JigsawPuzzle.Fits | src/educative/JigsawPuzzle/Main.java:153-178 | A fitting side list matches the piece above and the piece to the left when present, and is flat on every border side. |
| JigsawPuzzle.TryPiece | src/educative/JigsawPuzzle/Main.java:137-143 | A placed piece fills that cell, leaves the free list and fits its neighbours and the border, in one of the four rotations of its original sides. For a piece not already on the board, that rotation is the first of the four that fits. If it is not placed, nothing changes and the piece is back in its original orientation; a piece not already on the board then has no fitting orientation among its four. |
| JigsawPuzzle.MatchPieces | src/educative/JigsawPuzzle/Main.java:129-150 | The solver only fills empty cells, only with free pieces, and returns the same puzzle. Unplaced pieces keep their orientation. When the free list has no duplicates and no piece also on the board, every cell the solver fills fits its piece on the final board, and every cell left empty admits no remaining free piece in any rotation. |
| JigsawPuzzle.FillCell | src/educative/JigsawPuzzle/Main.java:135-145 | Only the one cell can be filled, only with a free piece, and unplaced pieces keep their orientation. A filled cell fits its piece. The piece is the first free piece, in list order, that fits in some rotation, among those not already on the board. If the cell stays empty, nothing changes and no free piece that is not on the board fits it in any rotation. |
| JigsawPuzzle.VisitCell | src/educative/JigsawPuzzle/Main.java:134-146 | One step of the scan changes no cell after (r, c). On a clean puzzle it keeps the solver's promise for every cell up to and including (r, c). |
| JigsawPuzzle.FillClean | src/educative/JigsawPuzzle/Main.java:136-145 | Filling one cell keeps the free list duplicate-free and disjoint from the board, and turns no piece on the board. The cell fits if filled; if it stays empty, no free piece fits it. |
| JigsawPuzzle.FillGrid | src/educative/JigsawPuzzle/Main.java:136-145 | The same step on the value view of the board: other cells keep their value, the free side lists only shrink, and the filled cell fits or the empty one is blocked. |
| JigsawPuzzle.StepKeepsSolved | src/educative/JigsawPuzzle/Main.java:133-148 | Filling cells in row-major order never breaks the fit of an earlier cell, because fitting looks only up and left. |
| JigsawPuzzle.PrefixFitsIn | src/educative/JigsawPuzzle/Main.java:159-169 | Whether a piece fits at a cell depends only on the cells before it in row-major order. |
| JigsawPuzzle.FitsAsGrid | src/educative/JigsawPuzzle/Main.java:153-178 | The fit test on the board agrees with the fit test on its value view. |
| JigsawPuzzle.PlacingKeepsClean | src/educative/JigsawPuzzle/Main.java:139 | Placing a free piece keeps the free list duplicate-free and disjoint from the board. |
| JigsawPuzzle.SolvedMeansFits | src/educative/JigsawPuzzle/Main.java:129-150 | At the end of the scan, the facts about the value view are the solver's promise about the board. |
| MeetingScheduler.OverlapsMeaning | src/educative/MeetingScheduler/Interval.java:21-23 | Two intervals overlap exactly when each starts no later than the other ends; overlap is symmetric and reflexive. |
| MeetingScheduler.BackToBackOverlap | src/educative/MeetingScheduler/Interval.java:21-23 | Intervals that only share an end point still overlap. |
| MeetingScheduler.Released | src/educative/MeetingScheduler/MeetingRoom.java:28-31 | Releasing never makes the booking list longer. |
| MeetingScheduler.ReleasedMeaning | src/educative/MeetingScheduler/MeetingRoom.java:28-31 | Releasing removes every booking with the same start and end and keeps every other booking as often as before. |
| MeetingScheduler.ReleasedAppend | src/educative/MeetingScheduler/MeetingRoom.java:28-31 | Releasing distributes over concatenation of booking lists. |
| MeetingScheduler.BookThenRelease | src/educative/MeetingScheduler/MeetingRoom.java:16-31 | A booked interval makes the room unavailable for it, and releasing it undoes the booking. |
| MeetingScheduler.MeetingRoom.constructor | src/educative/MeetingScheduler/MeetingRoom.java:10-14 | A new room has its id and capacity and no booking. |
| MeetingScheduler.MeetingRoom.IsAvailableFor | src/educative/MeetingScheduler/MeetingRoom.java:16-22 | Available exactly when the request fits the capacity and no booking overlaps the interval. |
| MeetingScheduler.MeetingRoom.BookInterval | src/educative/MeetingScheduler/MeetingRoom.java:24-26 | Appends the interval with no check. |
| MeetingScheduler.MeetingRoom.ReleaseInterval | src/educative/MeetingScheduler/MeetingRoom.java:28-31 | The bookings become `Released` of the old ones. |
| MeetingScheduler.Calendar.constructor | src/educative/MeetingScheduler/Calendar.java:5-7 | A new calendar is empty. |
| MeetingScheduler.Calendar.AddMeeting | src/educative/MeetingScheduler/Calendar.java:9-11 | Adds the meeting unless it is already there. |
| MeetingScheduler.Calendar.RemoveMeeting | src/educative/MeetingScheduler/Calendar.java:13-15 | Removes the first occurrence of the meeting. |
| MeetingScheduler.MeetingIds.constructor | src/educative/MeetingScheduler/Meeting.java:9 | The shared id counter starts at 1. |
| MeetingScheduler.StatusesPartition | src/educative/MeetingScheduler/Meeting.java:42-64 | Accepted, pending and rejected participants are disjoint and together are all participants. |
| MeetingScheduler.Meeting.constructor | src/educative/MeetingScheduler/Meeting.java:16-27 | Takes the next id and bumps the counter. Every listed user becomes a participant, each once, all pending. |
| MeetingScheduler.Meeting.AddParticipants | src/educative/MeetingScheduler/Meeting.java:29-35 | New users join as pending, and existing answers stay. |
| MeetingScheduler.Meeting.UpdateParticipantStatus | src/educative/MeetingScheduler/Meeting.java:36-40 | Records the status for a participant and ignores anyone else. |
| MeetingScheduler.Meeting.ParticipantsWith | src/educative/MeetingScheduler/Meeting.java:42-64 | Lists, without duplicates, exactly the participants holding the status. |
| MeetingScheduler.Meeting.GetAcceptedParticipants | src/educative/MeetingScheduler/Meeting.java:42-48 | Exactly the participants who accepted, each once. |
| MeetingScheduler.Meeting.GetPendingParticipants | src/educative/MeetingScheduler/Meeting.java:50-56 | Exactly the participants who have not answered, each once. |
| MeetingScheduler.Meeting.GetRejectedParticipants | src/educative/MeetingScheduler/Meeting.java:58-64 | Exactly the participants who rejected, each once. |
| MeetingScheduler.ResponseDecidesCalendar | src/educative/MeetingScheduler/User.java:15-23 | In a duplicate-free calendar, accepting puts the meeting in and rejecting takes it out; pending leaves it. Other meetings stay and no duplicate appears. |
| MeetingScheduler.AnswerCount | src/educative/MeetingScheduler/User.java:15-23 | A meeting held at most once is in the calendar once after accepting, zero times after rejecting. |
| MeetingScheduler.ResponseKeepsOthers | src/educative/MeetingScheduler/User.java:15-23 | Answering adds or removes only the meeting answered; every other meeting stays in the calendar as often as before. |
| MeetingScheduler.User.constructor | src/educative/MeetingScheduler/User.java:10-14 | A new user has a fresh, empty calendar. |
| MeetingScheduler.User.RespondInvitation | src/educative/MeetingScheduler/User.java:15-23 | Records the answer on the meeting, then updates this user's calendar by it. |
| MeetingScheduler.Scheduler.constructor | src/educative/MeetingScheduler/MeetingScheduler.java:10-14 | The scheduler uses the organizer's own calendar. |
| MeetingScheduler.Scheduler.CheckRoomsAvailability | src/educative/MeetingScheduler/MeetingScheduler.java:55-60 | Null exactly when no room is available; otherwise the first available room in list order. |
| MeetingScheduler.Scheduler.BookRoom | src/educative/MeetingScheduler/MeetingScheduler.java:62-65 | Appends the interval to the room's bookings. |
| MeetingScheduler.Scheduler.ReleaseRoom | src/educative/MeetingScheduler/MeetingScheduler.java:67-70 | Releases the interval from the room. |
| MeetingScheduler.Scheduler.ScheduleMeeting | src/educative/MeetingScheduler/MeetingScheduler.java:16-42 | With no room free it fails and changes nothing, the id counter included. Otherwise the room booked is the first one in list order that was free for the interval and the number of participants and a new meeting takes the next id, bumping the counter. Every participant has answered as `accepts` says, at that participant's last position in the list. Each holds the meeting exactly when they accepted. No calendar gains or loses any other meeting. When the organizer is not a participant, the organizer's calendar holds the meeting once. |
| MeetingScheduler.Scheduler.HoldMeeting | src/educative/MeetingScheduler/MeetingScheduler.java:22-39 | Books the chosen room and creates the meeting with the next id. It then ends in the same answers and calendars as `ScheduleMeeting`. |
| MeetingScheduler.Scheduler.InviteAll | src/educative/MeetingScheduler/MeetingScheduler.java:26-39 | Starting from a fresh all-pending meeting, every participant ends with the answer `accepts` gives. Each calendar holds the meeting exactly when its owner accepted, and nothing else in any calendar changes. The organizer's calendar holds it once unless the organizer is a participant. |
| MeetingScheduler.Scheduler.AddToCalendars | src/educative/MeetingScheduler/MeetingScheduler.java:26-30 | Every participant's calendar and the organizer's get the new meeting exactly once, and no other meeting in them changes. |
| MeetingScheduler.Scheduler.AddToUsers | src/educative/MeetingScheduler/MeetingScheduler.java:27-29 | Every participant's calendar gets the new meeting exactly once, even when a user is listed twice, and no other meeting in it changes. |
| MeetingScheduler.Scheduler.AddNext | src/educative/MeetingScheduler/MeetingScheduler.java:28 | Adding for the k-th user gives the first k + 1 users the meeting once. The others keep their calendars, and no calendar changes in any other meeting. |
| MeetingScheduler.Scheduler.CollectAnswers | src/educative/MeetingScheduler/MeetingScheduler.java:34-39 | Every participant answers in turn. Each ends with the answer given at their last position in the list, and their calendar holds the meeting exactly when they accepted. No other meeting in any calendar changes, and the organizer's calendar is untouched unless the organizer is a participant. |
| MeetingScheduler.Scheduler.AnswerNext | src/educative/MeetingScheduler/MeetingScheduler.java:36-38 | The k-th participant's status becomes their answer (yes accepts, no rejects), and no other status changes. The first k + 1 participants have then answered, and the rest are still invited with the meeting once in their calendar. No calendar changes in any other meeting. |
| MeetingScheduler.Scheduler.CancelMeeting | src/educative/MeetingScheduler/MeetingScheduler.java:44-53 | Frees the room for the interval, and removes the meeting from the calendar of every participant who accepted. No one else's calendar changes. |
| AmazonLockerService.TruncDiv | src/educative/AmazonLockerService/LockerPackage.java:45 | Java's long division by a positive divisor agrees with floor division on non-negative numbers. |
| AmazonLockerService.ValidCodeWindow | src/educative/AmazonLockerService/LockerPackage.java:42-47 | After delivery, a code valid for d days is accepted exactly until (d + 1) whole days have passed. |
| AmazonLockerService.EarlyClockCountsAsDayZero | src/educative/AmazonLockerService/LockerPackage.java:42-47 | A clock up to a day before the recorded delivery still counts as day 0. |
| AmazonLockerService.VerifyCodeMeaning | src/educative/AmazonLockerService/LockerPackage.java:49-61 | A code is accepted exactly when it is the package's own and still valid. |
| AmazonLockerService.Locker.constructor | src/educative/AmazonLockerService/Locker.java:12-18 | A new locker is available and empty. |
| AmazonLockerService.Locker.AddPackage | src/educative/AmazonLockerService/Locker.java:39-48 | Succeeds exactly when the locker was available; it is then booked and holds the package. Otherwise nothing changes. |
| AmazonLockerService.Locker.RemovePackage | src/educative/AmazonLockerService/Locker.java:50-60 | Succeeds exactly when the locker was booked with a package; it is then available and empty. Otherwise nothing changes. |
| AmazonLockerService.LockerLocation.constructor | src/educative/AmazonLockerService/LockerLocation.java:15-22 | A new location has no lockers. |
| AmazonLockerService.LockerLocation.AddLocker | src/educative/AmazonLockerService/LockerLocation.java:49-51 | Appends the locker. |
| AmazonLockerService.LockerService.constructor | src/educative/AmazonLockerService/LockerService.java:11-13 | A new service has no locations. |
| AmazonLockerService.LockerService.AddLocation | src/educative/AmazonLockerService/LockerService.java:26-28 | Appends the location. |
| AmazonLockerService.LockerService.FindLockerById | src/educative/AmazonLockerService/LockerService.java:30-40 | Null exactly when no locker has the id; otherwise the first one in location-then-locker order. |
| AmazonLockerService.LockerService.RequestLocker | src/educative/AmazonLockerService/LockerService.java:47-59 | Null exactly when no available locker of the size exists; otherwise the first one in location-then-locker order. |
| AmazonLockerService.LockerService.RequestReturn | src/educative/AmazonLockerService/LockerService.java:42-45 | Always accepted. |
| AmazonLockerService.LockerService.VerifyOtp | src/educative/AmazonLockerService/LockerService.java:61-63 | The package's own code check, at the given time. |
| AmazonLockerService.AllLockersPrefix | src/educative/AmazonLockerService/LockerService.java:31-37 | The lockers of the first n locations come first in the full search order. |
| AmazonOnlineShoppingSystem.WrapInt32 | src/educative/AmazonOnlineShoppingSystem/Product.java:30 | Java int arithmetic: the result is in 32-bit range, congruent to the exact result, and equal to it when that is in range. |
| AmazonOnlineShoppingSystem.IncrementWraps | src/educative/AmazonOnlineShoppingSystem/Product.java:30 | Pre-incrementing adds one below the largest int, and wraps the largest int to the smallest. |
| AmazonOnlineShoppingSystem.Product.constructor | src/educative/AmazonOnlineShoppingSystem/Product.java:17-23 | Stores the fields; the available count starts at 0. |
| AmazonOnlineShoppingSystem.Product.UpdateAvailableCount | src/educative/AmazonOnlineShoppingSystem/Product.java:29-31 | Pre-increments the count with int wrap-around and returns the new value. |
| AmazonOnlineShoppingSystem.Product.UpdatePrice | src/educative/AmazonOnlineShoppingSystem/Product.java:33-36 | Sets the price and reports success; the count stays. |
| AmazonOnlineShoppingSystem.CartItem.constructor | src/educative/AmazonOnlineShoppingSystem/CartItem.java:7-10 | Stores the product and the quantity and ignores the price argument. |
| AmazonOnlineShoppingSystem.CartItem.UpdateQuantity | src/educative/AmazonOnlineShoppingSystem/CartItem.java:16-19 | Sets the quantity and reports success. |
| AmazonOnlineShoppingSystem.TotalAppend | src/educative/AmazonOnlineShoppingSystem/ShoppingCart.java:10-14 | The sum of prices of two lists together is the sum of their sums. |
| AmazonOnlineShoppingSystem.TotalRemoveFirst | src/educative/AmazonOnlineShoppingSystem/ShoppingCart.java:16-22 | Removing an item in the list takes exactly its price off the sum. |
| AmazonOnlineShoppingSystem.ShoppingCart.constructor | src/educative/AmazonOnlineShoppingSystem/ShoppingCart.java:7-8 | A new cart is empty with total 0. |
| AmazonOnlineShoppingSystem.ShoppingCart.AddItem | src/educative/AmazonOnlineShoppingSystem/ShoppingCart.java:10-14 | Appends the item and adds its current price; the gap between the running total and the items' current prices stays. |
| AmazonOnlineShoppingSystem.ShoppingCart.RemoveItem | src/educative/AmazonOnlineShoppingSystem/ShoppingCart.java:16-22 | Succeeds exactly when the item is in the cart. It then removes its first occurrence and subtracts its price; otherwise nothing changes. The gap to the items' prices stays. |
| AmazonOnlineShoppingSystem.ShoppingCart.Verify | src/educative/AmazonOnlineShoppingSystem/ShoppingCart.java:33-35 | True exactly when the cart holds an item. |
| AmazonOnlineShoppingSystem.VerifyItem | src/educative/AmazonOnlineShoppingSystem/Order.java:29-31 | True exactly for a non-null item with a product and a positive quantity. |
| AmazonOnlineShoppingSystem.Search.constructor | src/educative/AmazonOnlineShoppingSystem/Search.java:8 | A new search holds no products. |
| AmazonOnlineShoppingSystem.Search.SetProducts | src/educative/AmazonOnlineShoppingSystem/Search.java:10-12 | Stores a copy of the given map. |
| AmazonOnlineShoppingSystem.Search.GetProductDetails | src/educative/AmazonOnlineShoppingSystem/Search.java:22-31 | Null exactly when no list holds a product with the id; otherwise such a product from one of the lists. |
| AmazonOnlineShoppingSystem.SearchIgnoresCase | src/educative/AmazonOnlineShoppingSystem/Search.java:14-20 | Name and category searches ignore letter case. |
| AmazonOnlineShoppingSystem.SearchMeaning | src/educative/AmazonOnlineShoppingSystem/Search.java:14-20 | A category search is the same lookup as a name search. An unknown key finds the empty list, and a stored one finds its list. |
| StackOverflow.Incremented | src/educative/StackOverflow/TagList.java:8-10 | The tag's count becomes its old count, or 0, plus one; other tags keep theirs. |
| StackOverflow.Decremented | src/educative/StackOverflow/TagList.java:12-15 | The tag's count drops by one and is removed when it reaches 0 or below, with an absent tag counting as 1. Other tags keep theirs. |
| StackOverflow.UpdatesKeepCountsPositive | src/educative/StackOverflow/TagList.java:8-15 | Both updates keep every stored count positive, and decrementing an absent tag changes nothing. |
| StackOverflow.IncrementThenDecrementRestores | src/educative/StackOverflow/TagList.java:8-15 | Counting a tag up and then down restores the counts. |
| StackOverflow.TagList.constructor | src/educative/StackOverflow/TagList.java:6 | No tag is counted. |
| StackOverflow.TagList.IncrementTagCount | src/educative/StackOverflow/TagList.java:8-10 | The counts become `Incremented` and stay positive. |
| StackOverflow.TagList.DecrementTagCount | src/educative/StackOverflow/TagList.java:12-15 | The counts become `Decremented` and stay positive. |
| StackOverflow.Question.constructor | src/educative/StackOverflow/Question.java:22-30 | Stores id, title and author; no tags yet. |
| StackOverflow.TagNames | src/educative/StackOverflow/SearchCatalog.java:27-29 | The i-th name is the i-th tag's name. |
| StackOverflow.LowerAll | src/educative/StackOverflow/SearchCatalog.java:33-35 | The i-th key is the i-th word lower-cased. |
| StackOverflow.ToLowerIdempotent | src/educative/StackOverflow/SearchCatalog.java:34 | Lower-casing twice is lower-casing once. |
| StackOverflow.SearchCatalog.constructor | src/educative/StackOverflow/SearchCatalog.java:6-8 | All three indexes start empty. |
| StackOverflow.SearchCatalog.IndexQuestion | src/educative/StackOverflow/SearchCatalog.java:26-36 | Files the question under each tag name, its author's name and each lower-cased title word. Every word key stays lower-case. |
| StackOverflow.IndexTagNames | src/educative/StackOverflow/SearchCatalog.java:27-29 | The tag loop appends the question under every tag name in order. |
| StackOverflow.IndexTitleWords | src/educative/StackOverflow/SearchCatalog.java:33-35 | The word loop appends the question under every lower-cased word in order, keeping the keys lower-case. |
| StackOverflow.IndexedQuestionIsFound | src/educative/StackOverflow/SearchCatalog.java:26-36 | After indexing, each key finds its old list plus the question once per occurrence of the key; every other key finds what it found before. |
| StackOverflow.MixedCaseWordNeverMatches | src/educative/StackOverflow/SearchCatalog.java:20-23 | A word query containing an upper-case letter never finds anything, because the query is not lower-cased. |
| StackOverflow.TitleWordsAreFound | src/educative/StackOverflow/SearchCatalog.java:33-35 | A title word in any case is found through its lower-case form. |
| HotelManagement.Room.constructor | src/educative/HotelManagement/Room.java:16-24 | Stores the room's fields. |
| HotelManagement.Room.Checkin | src/educative/HotelManagement/Room.java:30-33 | The room becomes occupied, and so not available, whatever it was. |
| HotelManagement.Room.Checkout | src/educative/HotelManagement/Room.java:35-38 | The room becomes available, whatever it was. |
| HotelManagement.AvailableOfStyleMeaning | src/educative/HotelManagement/Catalog.java:15-24 | A room is found exactly when it is listed, available and of the style. |
| HotelManagement.AvailableOfStyleIsSubsequence | src/educative/HotelManagement/Catalog.java:15-24 | The found rooms keep the list's order. |
| HotelManagement.Catalog.constructor | src/educative/HotelManagement/Catalog.java:10-12 | A new catalogue has no rooms. |
| HotelManagement.Catalog.Search | src/educative/HotelManagement/Catalog.java:15-24 | Returns, in list order, exactly the available rooms of the style; date and duration play no part. |
| ResturantManagement.Table.constructor | src/educative/ResturantManagement/Table.java:14-20 | Stores the table's fields. |
| ResturantManagement.Table.AddReservation | src/educative/ResturantManagement/Table.java:66-72 | Succeeds exactly for a free table, which becomes reserved; any other table is refused unchanged. |
| ResturantManagement.Search | src/educative/ResturantManagement/Table.java:74-76 | The placeholder search finds no table. |
| ResturantManagement.ReservationTakenOnce | src/educative/ResturantManagement/Table.java:62-72 | Only a free table takes a reservation, so a second reservation in a row is refused and leaves the table reserved. |
| AirLineManagement.Airport.constructor | src/educative/AirLineManagement/Airport.java:11-16 | Stores the name and the code. |
| AirLineManagement.FlightInstance.constructor | src/educative/AirLineManagement/FlightInstance.java:14-21 | Stores the gate and the departure time. |
| AirLineManagement.Flight.constructor | src/educative/AirLineManagement/Flight.java:12-18 | Stores the number and the instances. |
| AirLineManagement.SplitAtDash | src/educative/AirLineManagement/SearchCatalog.java:17 | A dash-free prefix and the rest are read back from their dashed join. |
| AirLineManagement.RenderingDashes | src/educative/AirLineManagement/SearchCatalog.java:17 | A rendered time starts with a dash exactly when negative and has no other dash. |
| AirLineManagement.TimesApart | src/educative/AirLineManagement/SearchCatalog.java:17 | Two times joined by a dash are read back apart. |
| AirLineManagement.GenerateKeyInjective | src/educative/AirLineManagement/SearchCatalog.java:16-18 | For dash-free airport codes, equal keys mean the same route and the same two times, and conversely. |
| AirLineManagement.DashedCodesShareKey | src/educative/AirLineManagement/SearchCatalog.java:16-18 | Codes with a dash can give two different routes the same key. |
| AirLineManagement.SearchCatalog.constructor | src/educative/AirLineManagement/SearchCatalog.java:12-14 | A new catalogue is empty. |
| AirLineManagement.SearchCatalog.AddFlight | src/educative/AirLineManagement/SearchCatalog.java:20-24 | Appends the instance to the list under its key, creating the list if absent. |
| AirLineManagement.AddFlightThenSearch | src/educative/AirLineManagement/SearchCatalog.java:20-30 | After adding, the same search ends with the new instance after the old ones. A search for any other dash-free route or other times finds what it found before. |
| AirLineManagement.Account.constructor | src/educative/AirLineManagement/Account.java:9-14 | Stores the id and the user name. |
| AirLineManagement.CrewScheduleMap.constructor | src/educative/AirLineManagement/Admin.java:9 | The shared schedule map starts empty. |
| AirLineManagement.Crew.constructor | src/educative/AirLineManagement/Crew.java:8-10 | Stores the name and the account. |
| AirLineManagement.Crew.ViewSchedule | src/educative/AirLineManagement/Crew.java:13-15 | A crew member reads the schedule filed under their own user name, which is empty when that name was never assigned. |
| AirLineManagement.Admin.constructor | src/educative/AirLineManagement/Admin.java:11-13 | Stores the name and uses the shared schedule map. |
| AirLineManagement.Admin.CancelFlight | src/educative/AirLineManagement/Admin.java:25-28 | Drops the flight's instance list and reports success. |
| AirLineManagement.Admin.AssignCrew | src/educative/AirLineManagement/Admin.java:30-35 | Appends the instance under the crew member's user name and reports success. |
| AirLineManagement.AssignedCrewSeesInstance | src/educative/AirLineManagement/Admin.java:30-39 | The assigned member's schedule ends with the instance, and every other user name's schedule is unchanged. |
| Singleton.JoinedAppend | src/DesignPatterns/Singleton/Logger.java:18-20 | Logging in two stretches gives the two logs one after the other. |
| Singleton.JoinedLength | src/DesignPatterns/Singleton/Logger.java:18-20 | The log grows by at least one character per message. |
| Singleton.Logger.constructor | src/DesignPatterns/Singleton/Logger.java:7-9 | A new logger has an empty log. |
| Singleton.Logger.Log | src/DesignPatterns/Singleton/Logger.java:18-20 | Appends the message and a line break; the log stays the join of all messages. |
| Singleton.Logger.GetLog | src/DesignPatterns/Singleton/Logger.java:22-24 | The log is every message so far, in order, each followed by a line break. |
| Singleton.LoggerInstance.constructor | src/DesignPatterns/Singleton/Logger.java:4 | The slot starts empty. |
| Singleton.LoggerInstance.GetInstance | src/DesignPatterns/Singleton/Logger.java:11-16 | The first call creates a fresh logger with an empty log; every later call returns that same logger. |
| Factory.GetVehicle | src/DesignPatterns/Creational/Factory/VehicleFactory.java:6-8 | A null name gives no vehicle. |
| Factory.GetVehicleMeaning | src/DesignPatterns/Creational/Factory/VehicleFactory.java:9-16 | Car, bike or truck is chosen exactly when the lower-cased name is "car", "bike" or "truck"; any other name gives none. |
| Factory.GetVehicleIgnoresCase | src/DesignPatterns/Creational/Factory/VehicleFactory.java:9-14 | Names that differ only in case give the same vehicle. |
| Builder.CarBuilder.constructor | src/DesignPatterns/Creational/Builder/Car.java:50-55 | Defaults: no engine, 4 wheels, 5 seats, black, no sunroof, no navigation system. |
| Builder.CarBuilder.SetEngine | src/DesignPatterns/Creational/Builder/Car.java:58-61 | Sets the engine only, null included, and returns the same builder. |
| Builder.CarBuilder.SetWheels | src/DesignPatterns/Creational/Builder/Car.java:62-65 | Sets the wheels only and returns the same builder. |
| Builder.CarBuilder.SetSeats | src/DesignPatterns/Creational/Builder/Car.java:66-69 | Sets the seats only and returns the same builder. |
| Builder.CarBuilder.SetColor | src/DesignPatterns/Creational/Builder/Car.java:70-73 | Sets the colour only and returns the same builder. |
| Builder.CarBuilder.SetSunroof | src/DesignPatterns/Creational/Builder/Car.java:74-77 | Sets the sunroof only and returns the same builder. |
| Builder.CarBuilder.SetNavigationSystem | src/DesignPatterns/Creational/Builder/Car.java:78-81 | Sets the navigation system only and returns the same builder. |
| Builder.CarBuilder.Build | src/DesignPatterns/Creational/Builder/Car.java:84-87 | The car copies every builder field; the builder is unchanged. |
| Text.EqualsIgnoreCaseIsLowerEquality | src/DesignPatterns/Creational/Factory/VehicleFactory.java:9 | Comparing while ignoring case is comparing the lower-cased strings. |
| Text.TokensAreWords | src/educative/StackOverflow/SearchCatalog.java:33 | Every token between runs of whitespace is non-empty and holds no whitespace. |
| Text.IntToStringInjective | src/educative/AirLineManagement/SearchCatalog.java:17 | Different times are rendered as different strings. |
| Lists.AddIfAbsentProperties | src/educative/MeetingScheduler/Calendar.java:9-11 | Adding keeps a list free of duplicates, is idempotent, keeps earlier entries in order and adds only the meeting. |
| Lists.RemoveFirstMultiset | src/educative/MeetingScheduler/Calendar.java:13-15 | Removing takes exactly one occurrence out. |
| Lists.RemoveFirstFromDistinct | src/educative/MeetingScheduler/Calendar.java:13-15 | In a list without duplicates, removing takes the element out entirely and keeps every other one. |
| Lists.AppendAllLookup | src/educative/StackOverflow/SearchCatalog.java:26-36 | Appending under a sequence of keys gives each key its old list plus one copy per occurrence. |
| Lists.AppendAllKeys | src/educative/StackOverflow/SearchCatalog.java:26-36 | The keys afterwards are the old keys and every key appended under. |

## Left out

- Floating point: every `double` amount is an integer number of cents. Rounding is not modelled, except Java's `(int)` cast in the ATM withdrawal (`TruncToDollars`).
- `java.util.Date` is integer milliseconds. `new Date()`, the current time, is a parameter of `VerifyCode`, `VerifyOtp` and `IsValidCode`.
- Console output and console input: every `System.out` message is left out, or replaced by a returned notice where it tells the caller an outcome. The chess game's `Scanner` input is the `lines` parameter of `ChessGame.Play`.
- Randomness: the meeting scheduler's random RSVP answer is the `accepts` parameter of `ScheduleMeeting`. The ATM card reader's result is the `readOk` parameter of `InsertCard`. UUIDs and generated ids are not modelled.
- Singletons (`getInstance`, static fields) are explicit objects passed to whoever shares them: `LoggerInstance`, `CrewScheduleMap`, `MeetingIds`, the `Machine`, `ATM` and `LockerService` objects, and `Puzzle` (`Puzzle.getInstance` and `initialize` are not modelled).
- `HashMap` iteration order: `Inventory.AllRacks` is a set. `Search.GetProductDetails` promises some product with the id, not a particular one. `Meeting` keeps its participants in insertion order, standing in for `HashMap.keySet()` order.
- Preconditions where the source would throw `NullPointerException`: `ShoppingCart.AddItem` and `CartItem.GetPrice` need an item with a product. `Machine.DispenseProduct` needs the selected rack to exist and to have been loaded. The ATM handlers need an active user.
- Null arguments that Java accepts and the model's types exclude:
  - `VendingMachine.Machine.LoadProduct` with a null product: VendingMachine.java:72 stores it in the rack, then line 73 throws from `product.getName()`.
  - `ATMDesign.BankAccount.Transfer` to a null account: BankAccount.java:26 debits the sender, then line 27 throws, so the amount is lost.
  - `Builder.CarBuilder.SetColor` with a null colour, which Car.java:70-71 stores.
  - `Singleton.Logger.Log` with a null message, for which Logger.java:19 appends the text "null".
- Object identity: tags, cart items, meetings, users and pieces are compared by reference, as classes without `equals`. Enumerations the model only compares (`LockerSize`, `RoomStyle`) are their names.
- Tag.java is not part of this model. A tag is an object holding only its name, compared by reference, and `Question.createdBy` is the author's name.
- GenerateKeyInjective: proved only for dash-free airport codes, because codes containing a dash can collide (`DashedCodesShareKey`).
- `ShoppingCart.checkout`, `Order.sendForShipment` and `Order.makePayment` only print or delegate to payment code outside the model.
- `toString`, `printBoard`, the views, setters, notifications and the getters other than `Chessboard.getBox` are not modelled.
- JigsawPuzzle.MatchPieces: the whole-board promise is proved only when the free list has no duplicates and shares no piece with the board. Otherwise the solver can place, or turn while trying, a piece object already on the board, which changes the sides of a cell filled earlier.
- JigsawPuzzle.Puzzle.InsertPiece: the two exceptions are the `InvalidPosition` and `OccupiedPosition` outcomes instead of thrown exceptions. Aliasing of the free list passed to the constructor is not modelled.
- ATMDesign: some method names in the ATM code do not line up.
  - The withdrawal handler is declared `cashWithdrawl`, so it does not override `ATMState.cashWithdrawal`.
  - The accounts declare `getWithdrawlLimit`, while the callers and the abstract method use `getWithdrawalLimit`.
  - The handlers call `getAccount` on the user, which declares only `getBankAccount`.
  - The model follows the evident intent: the handler overrides, the limits are $1000 for savings and $5000 for current accounts, and the user's account is used.
- VendingMachine.Rack.LoadProduct: Java's `quantity += qty` wraps around at 2^31; the model adds without bound.
- VendingMachine.Machine.LoadProduct: inherits the unbounded addition of `Rack.LoadProduct`.
- MeetingScheduler.Meeting.constructor: the static `nextId++` counter is an unbounded integer, so its 32-bit wrap-around is not modelled.
- StackOverflow.TagList.IncrementTagCount: the tag count is an unbounded integer; Java's `Integer` + 1 would wrap around at 2^31.
- StackOverflow.UpdatesKeepCountsPositive: holds for unbounded counts only, because a count at `Integer.MAX_VALUE` would wrap to a negative one in Java.
- Text.ToLower: lower-cases ASCII letters only. Java's `toLowerCase` also folds other letters, so "Éclair" becomes "éclair" there and stays as it is here.
- Text.EqualsIgnoreCase: compares ASCII letters without case only. Java's `equalsIgnoreCase` folds every letter, so `"bıke".equalsIgnoreCase("BIKE")` holds there and not here.
- Factory.GetVehicleMeaning: inherits the ASCII-only folding of `Text.ToLower`.
- Factory.GetVehicleIgnoresCase: states case-insensitivity for ASCII letters only.
- StackOverflow.SearchCatalog.IndexQuestion: title words are lower-cased in ASCII only.
- StackOverflow.MixedCaseWordNeverMatches: an upper-case letter here means an ASCII one.
- AmazonOnlineShoppingSystem.SearchIgnoresCase: ignores the case of ASCII letters only.
- ChessGame.Normalize: trims and lower-cases in ASCII only.
- AmazonOnlineShoppingSystem.Search.SetProducts: Java's `new HashMap<>(products)` is a shallow copy, so the product lists stay shared with the caller. The model copies values and does not capture that sharing.
- ChessGame.ChessGame.Play: Java's `sc.nextLine()` throws `NoSuchElementException` when input runs out before the game ends. The model simply stops at the end of `lines`.
- AirLineManagement.Admin.AssignCrew: for an instance without a flight, Java stores the instance and then throws `NullPointerException` from `instance.getFlight().getFlightNo()` in the confirmation message. The model leaves the message out, so it stores the instance and reports success in that case too.
- ATMDesign.ATM.SelectOperation: Cancel is modelled as written, a call to the inherited no-op `returnCard` of the selection state, so it changes nothing.

## Findings

| source | as written | input that shows it | evidently intended | confidence | as-written member | corrected member |
|---|---|---|---|---|---|---|
| src/educative/ATMDesign/CashWithdrawalState.java:10-13 | The handler admits `amount <= balance` and `amount <= limit`, dispenses the cash, then calls `withdraw`. `withdraw` refuses unless `amount < balance` and `amount < limit`, and the handler ignores that refusal. | A saving account with $500 asks for $500: $500 leaves the ATM and the balance stays $500 | Admit a request only under the same strict test `withdraw` applies, so the account is debited exactly what is paid out | not executed | ATMDesign.PayoutWithoutDebitExample | ATMDesign.CorrectedWithdrawalConserves |
