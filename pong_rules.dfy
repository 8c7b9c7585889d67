/** The rules of the Pong game: its constants, a snapshot of the game's state,
    and one function per state transition of the browser script (key events,
    restart, serving the ball, win detection, the AI opponent and the per-frame
    update). The class in PongGame changes its fields step by step and is
    proved to end in the state these functions describe; the lemmas here state
    what the transitions guarantee.

    Positions and speeds are exact reals. Every Math.random() result the
    script draws is an input in [0, 1). The canvas size is an input. */
module PongRules {

  const WinningScore: nat := 3
  const PaddleWidth: real := 10.0
  const PaddleHeight: real := 100.0
  const PaddleSpeed: real := 10.0
  const BallRadius: real := 10.0
  /** The horizontal and vertical ball speed set at start and on restart. */
  const InitialBallSpeed: real := 8.0
  /** How much a paddle hit speeds the ball up horizontally. */
  const HitSpeedUp: real := 1.05
  /** Vertical speed given per unit of distance between the ball and the paddle's centre. */
  const Deflection: real := 0.4
  const ConfettiCount: nat := 100

  datatype Mode = OnePlayer | TwoPlayers
  datatype Difficulty = Easy | Medium | Hard
  datatype Winner = NoWinner | Player1 | Player2

  datatype Canvas = Canvas(width: real, height: real)

  /** Which of the four control keys are held: w/s move the left paddle,
      the arrow keys the right one in two-player mode. */
  datatype Keys = Keys(w: bool, s: bool, up: bool, down: bool)

  datatype Ball = Ball(x: real, y: real, vx: real, vy: real)

  datatype Particle = Particle(x: real, y: real, size: real, red: int, green: int, blue: int, speed: real)

  /** The seven Math.random() results one confetti particle is made from, in
      the order the script draws them. */
  datatype ParticleDraw = ParticleDraw(x: real, y: real, size: real, red: real, green: real, blue: real, speed: real)

  /** The AI's per-difficulty tuning. */
  datatype Profile = Profile(reactionSpeed: real, errorMargin: real, predictionAccuracy: real)

  datatype GameState = GameState(
    mode: Mode,
    difficulty: Difficulty,
    player1Score: nat,
    player2Score: nat,
    gameOver: bool,
    winner: Winner,
    leftPaddleY: real,
    rightPaddleY: real,
    ball: Ball,
    keys: Keys,
    confetti: seq<Particle>)

  /** The random draws one frame of the game may consume: two for the AI's
      aiming error, one batch for the confetti of a win, one for the serve. */
  datatype TickDraws = TickDraws(aim: real, aimError: real, confetti: seq<ParticleDraw>, serve: real)

  predicate IsDraw(r: real) {
    0.0 <= r < 1.0
  }

  predicate IsParticleDraw(d: ParticleDraw) {
    IsDraw(d.x) && IsDraw(d.y) && IsDraw(d.size) && IsDraw(d.red) && IsDraw(d.green) && IsDraw(d.blue) && IsDraw(d.speed)
  }

  predicate IsConfettiDraw(ds: seq<ParticleDraw>) {
    |ds| == ConfettiCount && forall i | 0 <= i < |ds| :: IsParticleDraw(ds[i])
  }

  predicate IsTickDraws(d: TickDraws) {
    IsDraw(d.aim) && IsDraw(d.aimError) && IsConfettiDraw(d.confetti) && IsDraw(d.serve)
  }

  /** The canvas has a width and is at least one paddle high. */
  predicate ValidCanvas(c: Canvas) {
    c.width > 0.0 && c.height >= PaddleHeight
  }

  function Abs(x: real): real {
    if x < 0.0 then -x else x
  }

  /** What holds in every state the game reaches: each paddle is inside the band
      its guarded moves keep it in, nobody has won while the game goes on,
      exactly one player has reached the winning score once it is over, and
      the confetti exists exactly while there is a winner. */
  predicate ValidState(s: GameState, c: Canvas) {
    -PaddleSpeed < s.leftPaddleY < c.height - PaddleHeight + PaddleSpeed
    && -PaddleSpeed < s.rightPaddleY < c.height - PaddleHeight + PaddleSpeed
    && (s.gameOver <==> s.winner != NoWinner)
    && (s.winner == NoWinner ==>
          s.player1Score < WinningScore && s.player2Score < WinningScore && s.confetti == [])
    && (s.winner == Player1 ==>
          s.player1Score == WinningScore && s.player2Score < WinningScore && |s.confetti| == ConfettiCount)
    && (s.winner == Player2 ==>
          s.player2Score == WinningScore && s.player1Score < WinningScore && |s.confetti| == ConfettiCount)
  }

  /** The state when the script is loaded. */
  function Initial(c: Canvas): GameState {
    GameState(OnePlayer, Easy, 0, 0, false, NoWinner,
              (c.height - PaddleHeight) / 2.0, (c.height - PaddleHeight) / 2.0,
              Ball(c.width / 2.0, c.height / 2.0, InitialBallSpeed, InitialBallSpeed),
              Keys(false, false, false, false), [])
  }

  lemma InitialValid(c: Canvas)
    requires ValidCanvas(c)
    ensures ValidState(Initial(c), c)
  { }

  /* ---------------------------------------------------------------------
     Key events
     --------------------------------------------------------------------- */

  /** keyDownHandler (pressed) and keyUpHandler (released): the first matching
      key of w/W, s/S, ArrowUp, ArrowDown sets its flag; other keys do nothing. */
  function WithKey(k: Keys, key: string, pressed: bool): Keys {
    if key == "w" || key == "W" then k.(w := pressed)
    else if key == "s" || key == "S" then k.(s := pressed)
    else if key == "ArrowUp" then k.(up := pressed)
    else if key == "ArrowDown" then k.(down := pressed)
    else k
  }

  /** Each flag is set by its own key(s) only; any other key leaves all four flags. */
  lemma KeyFlags(k: Keys, key: string, pressed: bool)
    ensures WithKey(k, key, pressed).w == if key == "w" || key == "W" then pressed else k.w
    ensures WithKey(k, key, pressed).s == if key == "s" || key == "S" then pressed else k.s
    ensures WithKey(k, key, pressed).up == if key == "ArrowUp" then pressed else k.up
    ensures WithKey(k, key, pressed).down == if key == "ArrowDown" then pressed else k.down
    ensures key !in {"w", "W", "s", "S", "ArrowUp", "ArrowDown"} ==> WithKey(k, key, pressed) == k
  { }

  /* ---------------------------------------------------------------------
     Serving, restarting, winning
     --------------------------------------------------------------------- */

  /** resetBall: the ball goes to the centre, its horizontal speed keeps its
      magnitude with the sign chosen as the script does, and its vertical
      speed is drawn from `r`. */
  function BallReset(s: GameState, c: Canvas, r: real): GameState {
    s.(ball := Ball(c.width / 2.0, c.height / 2.0,
                    if s.ball.vx > 0.0 then -Abs(s.ball.vx) else Abs(s.ball.vx),
                    r * 14.0 - 7.0))
  }

  /** The serve is from the centre at the same horizontal speed, reversed (a
      ball moving right comes back moving left and vice versa), with a vertical
      speed in [-7, 7); nothing but the ball changes. */
  lemma BallResetSpec(s: GameState, c: Canvas, r: real)
    requires IsDraw(r)
    ensures var t := BallReset(s, c, r);
      t.ball.x == c.width / 2.0 && t.ball.y == c.height / 2.0
      && Abs(t.ball.vx) == Abs(s.ball.vx)
      && (s.ball.vx > 0.0 ==> t.ball.vx <= 0.0) && (s.ball.vx <= 0.0 ==> t.ball.vx >= 0.0)
      && t.ball.vx == -s.ball.vx
      && -7.0 <= t.ball.vy < 7.0
      && t == s.(ball := t.ball)
  { }

  /** restartGame: scores, game-over flag, winner and confetti are cleared, the
      ball speed is set back to its initial value and the ball is served. */
  function Restarted(s: GameState, c: Canvas, r: real): GameState {
    var cleared := s.(player1Score := 0, player2Score := 0, gameOver := false, winner := NoWinner,
                      confetti := [], ball := s.ball.(vx := InitialBallSpeed, vy := InitialBallSpeed));
    BallReset(cleared, c, r)
  }

  /** After a restart both scores are 0, the game is on with no winner and no
      confetti, the ball is centred and moves left at exactly the initial
      speed; paddles, keys, mode and difficulty are kept. */
  lemma RestartedSpec(s: GameState, c: Canvas, r: real)
    requires IsDraw(r)
    ensures var t := Restarted(s, c, r);
      t.player1Score == 0 && t.player2Score == 0 && !t.gameOver && t.winner == NoWinner && t.confetti == []
      && t.ball.x == c.width / 2.0 && t.ball.y == c.height / 2.0
      && t.ball.vx == -InitialBallSpeed && -7.0 <= t.ball.vy < 7.0
      && t.mode == s.mode && t.difficulty == s.difficulty && t.keys == s.keys
      && t.leftPaddleY == s.leftPaddleY && t.rightPaddleY == s.rightPaddleY
  { }

  lemma RestartedValid(s: GameState, c: Canvas, r: real)
    requires ValidState(s, c)
    ensures ValidState(Restarted(s, c, r), c)
  { }

  /** One confetti particle from its seven draws. */
  function MakeParticle(d: ParticleDraw, c: Canvas): (p: Particle)
    requires IsParticleDraw(d)
    ensures 5.0 <= p.size < 15.0 && 2.0 <= p.speed < 5.0
    ensures 0 <= p.red < 255 && 0 <= p.green < 255 && 0 <= p.blue < 255
    ensures p.y == d.y * c.height - c.height
  {
    Particle(d.x * c.width, d.y * c.height - c.height, d.size * 10.0 + 5.0,
             (d.red * 255.0).Floor, (d.green * 255.0).Floor, (d.blue * 255.0).Floor,
             d.speed * 3.0 + 2.0)
  }

  /** createConfetti: 100 particles, the i-th made from the i-th draw. */
  function Confetti(ds: seq<ParticleDraw>, c: Canvas): (ps: seq<Particle>)
    requires IsConfettiDraw(ds)
    ensures |ps| == ConfettiCount
    ensures forall i | 0 <= i < |ps| :: ps[i] == MakeParticle(ds[i], c)
  {
    seq(ConfettiCount, i requires 0 <= i < ConfettiCount && IsConfettiDraw(ds) => MakeParticle(ds[i], c))
  }

  /** checkWinner. */
  function WinnerChecked(s: GameState, c: Canvas, ds: seq<ParticleDraw>): GameState
    requires IsConfettiDraw(ds)
  {
    if s.player1Score >= WinningScore then s.(gameOver := true, winner := Player1, confetti := Confetti(ds, c))
    else if s.player2Score >= WinningScore then s.(gameOver := true, winner := Player2, confetti := Confetti(ds, c))
    else s
  }

  /** The game ends with player 1 as winner once player 1 has 3 points, else
      with player 2 once player 2 has; either way the confetti becomes the
      100 particles made from the draws. Otherwise nothing changes. Player 1
      is checked first, and only the outcome and the confetti ever change. */
  lemma WinnerCheckedSpec(s: GameState, c: Canvas, ds: seq<ParticleDraw>)
    requires IsConfettiDraw(ds)
    ensures var t := WinnerChecked(s, c, ds);
      (s.player1Score >= WinningScore ==> t.gameOver && t.winner == Player1)
      && (s.player1Score < WinningScore && s.player2Score >= WinningScore ==> t.gameOver && t.winner == Player2)
      && (s.player1Score < WinningScore && s.player2Score < WinningScore ==> t == s)
      && ((s.player1Score >= WinningScore || s.player2Score >= WinningScore) ==> t.confetti == Confetti(ds, c))
      && t == s.(gameOver := t.gameOver, winner := t.winner, confetti := t.confetti)
  { }

  /* ---------------------------------------------------------------------
     Paddles
     --------------------------------------------------------------------- */

  /** A human paddle's move in one frame: up by one step if the up key is held
      and the paddle is below the top, then down by one step if the down key
      is held and the paddle is above its lowest position. The moves are
      guarded, not clamped. */
  function HumanMove(y: real, up: bool, down: bool, height: real): real {
    var y1 := if up && y > 0.0 then y - PaddleSpeed else y;
    if down && y1 < height - PaddleHeight then y1 + PaddleSpeed else y1
  }

  lemma HumanMoveSpec(y: real, height: real)
    ensures HumanMove(y, true, false, height) == if y > 0.0 then y - PaddleSpeed else y
    ensures HumanMove(y, false, true, height) == if y < height - PaddleHeight then y + PaddleSpeed else y
    ensures HumanMove(y, false, false, height) == y
    ensures 0.0 < y < height - PaddleHeight ==> HumanMove(y, true, true, height) == y
  { }

  /** The band a guarded paddle never leaves: less than one step beyond either end. */
  lemma HumanMoveInBand(y: real, up: bool, down: bool, height: real)
    requires -PaddleSpeed < y < height - PaddleHeight + PaddleSpeed
    ensures -PaddleSpeed < HumanMove(y, up, down, height) < height - PaddleHeight + PaddleSpeed
  { }

  /** A paddle less than one step above its lowest position still moves a full step,
      so on a 400-high canvas a paddle at 295 goes to 305, past 300. */
  lemma HumanMoveOvershoots()
    ensures HumanMove(295.0, false, true, 400.0) == 305.0
    ensures 305.0 > 400.0 - PaddleHeight
  { }

  /** The clamp after the AI's move. */
  function Clamp(y: real, height: real): real {
    if y < 0.0 then 0.0
    else if y + PaddleHeight > height then height - PaddleHeight
    else y
  }

  lemma ClampInCourt(y: real, height: real)
    requires height >= PaddleHeight
    ensures 0.0 <= Clamp(y, height) <= height - PaddleHeight
    ensures 0.0 <= y <= height - PaddleHeight ==> Clamp(y, height) == y
  { }

  /* ---------------------------------------------------------------------
     The AI opponent
     --------------------------------------------------------------------- */

  /** The AI's parameters for a difficulty: the fraction of the remaining
      distance it moves per frame, the largest aiming error in pixels, and the
      probability that it aims without error. */
  function ProfileOf(d: Difficulty): (p: Profile)
    ensures 0.0 < p.reactionSpeed < 1.0
    ensures 0.0 < p.errorMargin
    ensures 0.0 < p.predictionAccuracy < 1.0
  {
    match d
    case Easy => Profile(0.03, 30.0, 0.7)
    case Medium => Profile(0.06, 15.0, 0.85)
    case Hard => Profile(0.09, 5.0, 0.95)
  }

  /** A harder level moves faster, errs by less and aims without error more often. */
  lemma ProfilesOrdered()
    ensures ProfileOf(Easy).reactionSpeed < ProfileOf(Medium).reactionSpeed < ProfileOf(Hard).reactionSpeed
    ensures ProfileOf(Easy).errorMargin > ProfileOf(Medium).errorMargin > ProfileOf(Hard).errorMargin
    ensures ProfileOf(Easy).predictionAccuracy < ProfileOf(Medium).predictionAccuracy < ProfileOf(Hard).predictionAccuracy
  { }

  /** A termination measure for Fold: two units per canvas height of distance
      from 0, plus one while the position is negative. */
  function FoldMeasure(p: real, h: real): nat
    requires h > 0.0
  {
    NonNegativeFloor(Abs(p) / h);
    2 * (Abs(p) / h).Floor + (if p < 0.0 then 1 else 0)
  }

  lemma NonNegativeFloor(x: real)
    requires x >= 0.0
    ensures x.Floor >= 0
  { }

  lemma FoldDecreases(p: real, h: real)
    requires h > 0.0
    ensures p < 0.0 ==> FoldMeasure(-p, h) < FoldMeasure(p, h)
    ensures p > h ==> FoldMeasure(2.0 * h - p, h) < FoldMeasure(p, h)
  {
    if p > h {
      var x := p / h;
      Quotients(p, h);
      assert x.Floor >= 1;
      if p <= 2.0 * h {
        assert Abs(2.0 * h - p) / h == 2.0 - x;
        assert (2.0 - x).Floor == 0;
      } else {
        assert Abs(2.0 * h - p) / h == x - 2.0;
        assert (x - 2.0).Floor == x.Floor - 2;
      }
    }
  }

  lemma Quotients(p: real, h: real)
    requires h > 0.0
    ensures (2.0 * h - p) / h == 2.0 - p / h
    ensures (p - 2.0 * h) / h == p / h - 2.0
    ensures p > h ==> p / h > 1.0
    ensures p <= 2.0 * h ==> p / h <= 2.0
  {
    var x := p / h;
    assert x * h == p;
    var a, b := (2.0 * h - p) / h, (p - 2.0 * h) / h;
    assert a * h == 2.0 * h - p && b * h == p - 2.0 * h;
    assert (a - (2.0 - x)) * h == 0.0;
    ZeroProduct(a - (2.0 - x), h);
    assert (b - (x - 2.0)) * h == 0.0;
    ZeroProduct(b - (x - 2.0), h);
  }

  lemma ZeroProduct(a: real, h: real)
    requires h != 0.0 && a * h == 0.0
    ensures a == 0.0
  { }

  /** The loop of updateAI that folds a predicted height back into [0, h] by
      mirroring it at the top (0) and bottom (h) walls until it lies inside. */
  function Fold(p: real, h: real): (q: real)
    requires h > 0.0
    ensures 0.0 <= q <= h
    decreases FoldMeasure(p, h)
  {
    FoldDecreases(p, h);
    if p < 0.0 then Fold(-p, h)
    else if p > h then Fold(2.0 * h - p, h)
    else p
  }

  /** `p` reflected `k` times across the pair of walls, mirrored once more if `flip`. */
  function Mirror(p: real, h: real, k: int, flip: bool): real {
    (if flip then -p else p) + 2.0 * (k as real) * h
  }

  /** The folded height is an image of `p` under reflections at 0 and h. */
  lemma {:induction false} FoldIsMirror(p: real, h: real) returns (k: int, flip: bool)
    requires h > 0.0
    ensures Fold(p, h) == Mirror(p, h, k, flip)
    decreases FoldMeasure(p, h)
  {
    FoldDecreases(p, h);
    if p < 0.0 {
      var k1, f1 := FoldIsMirror(-p, h);
      k, flip := k1, !f1;
    } else if p > h {
      var k1, f1 := FoldIsMirror(2.0 * h - p, h);
      if f1 {
        k, flip := k1 - 1, false;
      } else {
        k, flip := k1 + 1, true;
      }
    } else {
      k, flip := 0, false;
    }
  }

  /** ... and it is the only such image inside [0, h]: the fold is the point
      where a ball travelling in a straight line from `p` would be after
      bouncing between the walls. */
  lemma FoldUnique(p: real, h: real, q: real, k: int, flip: bool)
    requires h > 0.0
    requires 0.0 <= q <= h && q == Mirror(p, h, k, flip)
    ensures q == Fold(p, h)
  {
    var k2, f2 := FoldIsMirror(p, h);
    if flip == f2 {
      MirrorSameSide(p, h, q, k, Fold(p, h), k2, flip);
    } else {
      MirrorOppositeSides(p, h, q, k, flip, Fold(p, h), k2);
    }
  }

  /** Two images of `p` in [0, h] with the same orientation coincide. */
  lemma MirrorSameSide(p: real, h: real, q1: real, k1: int, q2: real, k2: int, flip: bool)
    requires h > 0.0
    requires 0.0 <= q1 <= h && q1 == Mirror(p, h, k1, flip)
    requires 0.0 <= q2 <= h && q2 == Mirror(p, h, k2, flip)
    ensures q1 == q2
  {
    assert q1 - q2 == 2.0 * ((k1 - k2) as real) * h;
    // |q1 - q2| <= h, so the multiple of 2h between them is zero
    assert k1 == k2;
  }

  /** Two images of `p` in [0, h] with opposite orientations coincide: both
      are 0 or both are h. */
  lemma MirrorOppositeSides(p: real, h: real, q1: real, k1: int, flip: bool, q2: real, k2: int)
    requires h > 0.0
    requires 0.0 <= q1 <= h && q1 == Mirror(p, h, k1, flip)
    requires 0.0 <= q2 <= h && q2 == Mirror(p, h, k2, !flip)
    ensures q1 == q2
  {
    var m := (k1 + k2) as real;
    assert q1 + q2 == 2.0 * m * h;
    if k1 + k2 >= 2 {
      assert m * h >= 2.0 * h;
    } else if k1 + k2 <= -1 {
      assert m * h <= -h;
    } else if k1 + k2 == 1 {
      assert q1 + q2 == 2.0 * h;
    } else {
      assert q1 + q2 == 0.0;
    }
  }

  /** Where the ball, moving in a straight line, reaches the vertical line
      the AI's paddle face is on, before the walls are taken into account. */
  function Prediction(b: Ball, c: Canvas): real
    requires b.vx > 0.0
  {
    var ballDistanceX := c.width - BallRadius - b.x;
    b.y + b.vy * (ballDistanceX / b.vx)
  }

  /** The aiming error: added, scaled by `rError`, when `rAim` exceeds the
      profile's accuracy. */
  function WithAimError(y: real, profile: Profile, rAim: real, rError: real): real {
    if rAim > profile.predictionAccuracy then y + (rError * 2.0 - 1.0) * profile.errorMargin else y
  }

  /** The point the AI steers the centre of its paddle to: the folded
      prediction, with the aiming error, while the ball comes towards it; its
      own centre otherwise. */
  function AITarget(s: GameState, c: Canvas, rAim: real, rError: real): real
    requires c.height > 0.0
  {
    if s.ball.vx > 0.0 then
      WithAimError(Fold(Prediction(s.ball, c), c.height), ProfileOf(s.difficulty), rAim, rError)
    else s.rightPaddleY + PaddleHeight / 2.0
  }

  /** updateAI: a proportional step of the right paddle towards the target,
      then the clamp. */
  function AIPaddle(s: GameState, c: Canvas, rAim: real, rError: real): real
    requires c.height > 0.0
  {
    var profile := ProfileOf(s.difficulty);
    var paddleCenter := s.rightPaddleY + PaddleHeight / 2.0;
    var distanceToTarget := AITarget(s, c, rAim, rError) - paddleCenter;
    Clamp(s.rightPaddleY + distanceToTarget * profile.reactionSpeed * PaddleSpeed, c.height)
  }

  /** While the ball moves away the AI aims at its own centre, so the paddle
      does not move except for the clamp. */
  lemma AIIdle(s: GameState, c: Canvas, rAim: real, rError: real)
    requires c.height > 0.0 && s.ball.vx <= 0.0
    ensures AITarget(s, c, rAim, rError) == s.rightPaddleY + PaddleHeight / 2.0
    ensures AIPaddle(s, c, rAim, rError) == Clamp(s.rightPaddleY, c.height)
  { }

  /** When the ball comes towards it, the AI aims inside the court widened by
      the profile's error margin, and exactly at the folded prediction when
      `rAim` does not exceed the accuracy. */
  lemma AITargetRange(s: GameState, c: Canvas, rAim: real, rError: real)
    requires c.height > 0.0 && s.ball.vx > 0.0 && IsDraw(rError)
    ensures var margin := ProfileOf(s.difficulty).errorMargin;
      -margin <= AITarget(s, c, rAim, rError) <= c.height + margin
    ensures rAim <= ProfileOf(s.difficulty).predictionAccuracy ==>
      0.0 <= AITarget(s, c, rAim, rError) <= c.height
  {
    var profile := ProfileOf(s.difficulty);
    var e := (rError * 2.0 - 1.0) * profile.errorMargin;
    assert -profile.errorMargin <= e <= profile.errorMargin by {
      match s.difficulty
      case Easy =>
      case Medium =>
      case Hard =>
    }
  }

  /** After the AI's move its paddle is inside the court. */
  lemma AIPaddleInCourt(s: GameState, c: Canvas, rAim: real, rError: real)
    requires ValidCanvas(c)
    ensures 0.0 <= AIPaddle(s, c, rAim, rError) <= c.height - PaddleHeight
  { }

  /* ---------------------------------------------------------------------
     The ball
     --------------------------------------------------------------------- */

  predicate TouchesWall(b: Ball, height: real) {
    b.y - BallRadius < 0.0 || b.y + BallRadius > height
  }

  /** The ball's left edge is left of the left paddle's face and its centre
      strictly between the paddle's top and bottom. */
  predicate HitsLeftPaddle(b: Ball, paddleY: real) {
    b.x - BallRadius < PaddleWidth && b.y > paddleY && b.y < paddleY + PaddleHeight
  }

  predicate HitsRightPaddle(b: Ball, paddleY: real, width: real) {
    b.x + BallRadius > width - PaddleWidth && b.y > paddleY && b.y < paddleY + PaddleHeight
  }

  /** The speed after a paddle hit: horizontally reversed and 5% faster,
      vertically proportional to the offset from the paddle's centre. */
  function PaddleBounce(b: Ball, paddleY: real): Ball {
    b.(vx := -b.vx * HitSpeedUp, vy := (b.y - (paddleY + PaddleHeight / 2.0)) * Deflection)
  }

  /** The vertical speed is reversed when the ball touches the top or bottom. */
  function WallBounce(b: Ball, height: real): Ball {
    if TouchesWall(b, height) then b.(vy := -b.vy) else b
  }

  function LeftPaddleBounce(b: Ball, paddleY: real): Ball {
    if HitsLeftPaddle(b, paddleY) then PaddleBounce(b, paddleY) else b
  }

  function RightPaddleBounce(b: Ball, paddleY: real, width: real): Ball {
    if HitsRightPaddle(b, paddleY, width) then PaddleBounce(b, paddleY) else b
  }

  /** One frame of ball flight: move by the speed, reverse the vertical speed
      on touching the top or bottom, then bounce off the left and then the
      right paddle. */
  function BallFlight(b: Ball, leftY: real, rightY: real, c: Canvas): Ball {
    var moved := Ball(b.x + b.vx, b.y + b.vy, b.vx, b.vy);
    RightPaddleBounce(LeftPaddleBounce(WallBounce(moved, c.height), leftY), rightY, c.width)
  }

  /** The ball always moves by exactly its speed: bounces change the speed, not
      the position. */
  lemma BallFlightMoves(b: Ball, leftY: real, rightY: real, c: Canvas)
    ensures BallFlight(b, leftY, rightY, c).x == b.x + b.vx
    ensures BallFlight(b, leftY, rightY, c).y == b.y + b.vy
  { }

  /** Without a paddle hit, the vertical speed is reversed exactly when the
      moved ball touches the top or bottom, and the horizontal speed is kept. */
  lemma BallFlightWall(b: Ball, leftY: real, rightY: real, c: Canvas)
    requires var p := Ball(b.x + b.vx, b.y + b.vy, b.vx, b.vy);
      !HitsLeftPaddle(p, leftY) && !HitsRightPaddle(p, rightY, c.width)
    ensures var p := Ball(b.x + b.vx, b.y + b.vy, b.vx, b.vy);
      BallFlight(b, leftY, rightY, c).vy == (if TouchesWall(p, c.height) then -b.vy else b.vy)
      && BallFlight(b, leftY, rightY, c).vx == b.vx
  { }

  /** A hit on the left paddle alone reverses the horizontal speed and makes it
      5% larger, and sets the vertical speed from the offset to the centre. */
  lemma BallFlightLeftHit(b: Ball, leftY: real, rightY: real, c: Canvas)
    requires var p := Ball(b.x + b.vx, b.y + b.vy, b.vx, b.vy);
      HitsLeftPaddle(p, leftY) && !HitsRightPaddle(p, rightY, c.width)
    ensures var t := BallFlight(b, leftY, rightY, c);
      t.vx == -HitSpeedUp * b.vx && Abs(t.vx) == HitSpeedUp * Abs(b.vx)
      && t.vy == Deflection * (t.y - (leftY + PaddleHeight / 2.0))
  { }

  lemma BallFlightRightHit(b: Ball, leftY: real, rightY: real, c: Canvas)
    requires var p := Ball(b.x + b.vx, b.y + b.vy, b.vx, b.vy);
      !HitsLeftPaddle(p, leftY) && HitsRightPaddle(p, rightY, c.width)
    ensures var t := BallFlight(b, leftY, rightY, c);
      t.vx == -HitSpeedUp * b.vx && Abs(t.vx) == HitSpeedUp * Abs(b.vx)
      && t.vy == Deflection * (t.y - (rightY + PaddleHeight / 2.0))
  { }

  /* ---------------------------------------------------------------------
     One frame
     --------------------------------------------------------------------- */

  /** The right paddle's position after its move: human in two-player mode, AI otherwise. */
  function RightPaddleMove(s: GameState, c: Canvas, rAim: real, rError: real): real
    requires c.height > 0.0
  {
    if s.mode == TwoPlayers then HumanMove(s.rightPaddleY, s.keys.up, s.keys.down, c.height)
    else AIPaddle(s, c, rAim, rError)
  }

  /** The right paddle's move does not depend on the left paddle. */
  lemma RightPaddleIgnoresLeftPaddle(s: GameState, c: Canvas, rAim: real, rError: real, y: real)
    requires c.height > 0.0
    ensures RightPaddleMove(s.(leftPaddleY := y), c, rAim, rError) == RightPaddleMove(s, c, rAim, rError)
  { }

  /** The end of a frame's ball phase: a ball past the left edge scores for
      player 2, past the right edge for player 1, each point followed by the
      winner check and a serve. */
  function Scoring(s: GameState, c: Canvas, d: TickDraws): GameState
    requires IsTickDraws(d)
  {
    if s.ball.x < 0.0 then
      BallReset(WinnerChecked(s.(player2Score := s.player2Score + 1), c, d.confetti), c, d.serve)
    else if s.ball.x > c.width then
      BallReset(WinnerChecked(s.(player1Score := s.player1Score + 1), c, d.confetti), c, d.serve)
    else s
  }

  /** update: both paddles move; unless the game is over the ball flies and
      a point may be scored. */
  function Ticked(s: GameState, c: Canvas, d: TickDraws): GameState
    requires ValidCanvas(c) && IsTickDraws(d)
  {
    var left := HumanMove(s.leftPaddleY, s.keys.w, s.keys.s, c.height);
    var right := RightPaddleMove(s, c, d.aim, d.aimError);
    var moved := s.(leftPaddleY := left, rightPaddleY := right);
    if s.gameOver then moved
    else Scoring(moved.(ball := BallFlight(s.ball, left, right, c)), c, d)
  }

  /** Once the game is over a frame still moves the paddles but leaves the ball,
      the scores and the outcome alone. */
  lemma TickedWhenOver(s: GameState, c: Canvas, d: TickDraws)
    requires ValidCanvas(c) && IsTickDraws(d) && s.gameOver
    ensures var t := Ticked(s, c, d);
      t.ball == s.ball && t.player1Score == s.player1Score && t.player2Score == s.player2Score
      && t.gameOver && t.winner == s.winner && t.confetti == s.confetti
      && t.leftPaddleY == HumanMove(s.leftPaddleY, s.keys.w, s.keys.s, c.height)
  { }

  /** While the game is on, a ball that ends the frame left of the court gives
      player 2 one point, right of it player 1 one point, and inside it nobody;
      after a point the ball is served from the centre. */
  lemma TickedScoring(s: GameState, c: Canvas, d: TickDraws)
    requires ValidCanvas(c) && IsTickDraws(d) && !s.gameOver
    ensures var t := Ticked(s, c, d);
      var b := BallFlight(s.ball, HumanMove(s.leftPaddleY, s.keys.w, s.keys.s, c.height),
                          RightPaddleMove(s, c, d.aim, d.aimError), c);
      (b.x < 0.0 ==> t.player2Score == s.player2Score + 1 && t.player1Score == s.player1Score)
      && (b.x > c.width ==> t.player1Score == s.player1Score + 1 && t.player2Score == s.player2Score)
      && (0.0 <= b.x <= c.width ==> t.player1Score == s.player1Score && t.player2Score == s.player2Score && t.ball == b)
      && ((b.x < 0.0 || b.x > c.width) ==>
            t.ball.x == c.width / 2.0 && t.ball.y == c.height / 2.0 && Abs(t.ball.vx) == Abs(b.vx))
  {
    var left := HumanMove(s.leftPaddleY, s.keys.w, s.keys.s, c.height);
    var right := RightPaddleMove(s, c, d.aim, d.aimError);
    var b := BallFlight(s.ball, left, right, c);
    var flown := s.(leftPaddleY := left, rightPaddleY := right, ball := b);
    if b.x < 0.0 {
      var scored := flown.(player2Score := s.player2Score + 1);
      WinnerCheckedSpec(scored, c, d.confetti);
      BallResetSpec(WinnerChecked(scored, c, d.confetti), c, d.serve);
    } else if b.x > c.width {
      var scored := flown.(player1Score := s.player1Score + 1);
      WinnerCheckedSpec(scored, c, d.confetti);
      BallResetSpec(WinnerChecked(scored, c, d.confetti), c, d.serve);
    }
  }

  /** Scores never fall, and a frame raises at most one of them by one. */
  lemma TickedScoresStep(s: GameState, c: Canvas, d: TickDraws)
    requires ValidCanvas(c) && IsTickDraws(d)
    ensures var t := Ticked(s, c, d);
      (t.player1Score == s.player1Score && t.player2Score == s.player2Score)
      || (t.player1Score == s.player1Score + 1 && t.player2Score == s.player2Score)
      || (t.player1Score == s.player1Score && t.player2Score == s.player2Score + 1)
  {
    if s.gameOver {
      TickedWhenOver(s, c, d);
    } else {
      TickedScoring(s, c, d);
    }
  }

  /** Every frame keeps the game's invariant. */
  lemma TickedValid(s: GameState, c: Canvas, d: TickDraws)
    requires ValidCanvas(c) && IsTickDraws(d) && ValidState(s, c)
    ensures ValidState(Ticked(s, c, d), c)
  {
    var left := HumanMove(s.leftPaddleY, s.keys.w, s.keys.s, c.height);
    var right := RightPaddleMove(s, c, d.aim, d.aimError);
    HumanMoveInBand(s.leftPaddleY, s.keys.w, s.keys.s, c.height);
    if s.mode == TwoPlayers {
      HumanMoveInBand(s.rightPaddleY, s.keys.up, s.keys.down, c.height);
    } else {
      AIPaddleInCourt(s, c, d.aim, d.aimError);
    }
    if !s.gameOver {
      var b := BallFlight(s.ball, left, right, c);
      var flown := s.(leftPaddleY := left, rightPaddleY := right, ball := b);
      if b.x < 0.0 {
        WinnerCheckedSpec(flown.(player2Score := s.player2Score + 1), c, d.confetti);
      } else if b.x > c.width {
        WinnerCheckedSpec(flown.(player1Score := s.player1Score + 1), c, d.confetti);
      }
    }
  }
}
