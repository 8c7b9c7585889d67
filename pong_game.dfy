/** The browser script's game as it runs: its module-level variables are the
    fields of one object, and each handler or frame function is a method that
    updates them in place. Every method is proved to leave the object in the
    state the matching function of PongRules computes from the old state, and
    the handlers a player can trigger keep the game's invariant. */
module PongGame {
  import opened PongRules

  /** The loop of updateAI that mirrors the predicted height at the walls
      until it lies on the court. */
  method FoldPrediction(predicted: real, height: real) returns (predictedY: real)
    requires height > 0.0
    ensures predictedY == Fold(predicted, height)
    ensures 0.0 <= predictedY <= height
  {
    predictedY := predicted;
    while predictedY < 0.0 || predictedY > height
      invariant Fold(predictedY, height) == Fold(predicted, height)
      decreases FoldMeasure(predictedY, height)
    {
      FoldDecreases(predictedY, height);
      if predictedY < 0.0 {
        predictedY := -predictedY;
      } else if predictedY > height {
        predictedY := 2.0 * height - predictedY;
      }
    }
  }

  class Game {
    const canvas: Canvas

    var gameMode: Mode
    var difficulty: Difficulty

    var player1Score: nat
    var player2Score: nat
    var gameOver: bool
    var winner: Winner
    var confetti: seq<Particle>

    var leftPaddleY: real
    var rightPaddleY: real

    var ballX: real
    var ballY: real
    var ballSpeedX: real
    var ballSpeedY: real

    var wPressed: bool
    var sPressed: bool
    var upPressed: bool
    var downPressed: bool

    /** The fields as one snapshot. */
    function State(): GameState
      reads this
    {
      GameState(gameMode, difficulty, player1Score, player2Score, gameOver, winner,
                leftPaddleY, rightPaddleY, Ball(ballX, ballY, ballSpeedX, ballSpeedY),
                Keys(wPressed, sPressed, upPressed, downPressed), confetti)
    }

    ghost predicate Valid()
      reads this
    {
      ValidCanvas(canvas) && ValidState(State(), canvas)
    }

    /** The variables' values when the script is loaded on a canvas of size `c`. */
    constructor (c: Canvas)
      requires ValidCanvas(c)
      ensures canvas == c && State() == Initial(c)
      ensures Valid()
    {
      InitialValid(c);
      canvas := c;
      gameMode := OnePlayer;
      difficulty := Easy;
      player1Score := 0;
      player2Score := 0;
      gameOver := false;
      winner := NoWinner;
      confetti := [];
      leftPaddleY := (c.height - PaddleHeight) / 2.0;
      rightPaddleY := (c.height - PaddleHeight) / 2.0;
      ballX := c.width / 2.0;
      ballY := c.height / 2.0;
      ballSpeedX := InitialBallSpeed;
      ballSpeedY := InitialBallSpeed;
      wPressed := false;
      sPressed := false;
      upPressed := false;
      downPressed := false;
    }

    method KeyDownHandler(key: string)
      requires Valid()
      modifies this
      ensures State() == old(State()).(keys := WithKey(old(State()).keys, key, true))
      ensures Valid()
    {
      if key == "w" || key == "W" {
        wPressed := true;
      } else if key == "s" || key == "S" {
        sPressed := true;
      } else if key == "ArrowUp" {
        upPressed := true;
      } else if key == "ArrowDown" {
        downPressed := true;
      }
    }

    method KeyUpHandler(key: string)
      requires Valid()
      modifies this
      ensures State() == old(State()).(keys := WithKey(old(State()).keys, key, false))
      ensures Valid()
    {
      if key == "w" || key == "W" {
        wPressed := false;
      } else if key == "s" || key == "S" {
        sPressed := false;
      } else if key == "ArrowUp" {
        upPressed := false;
      } else if key == "ArrowDown" {
        downPressed := false;
      }
    }

    /** createConfetti: replaces the confetti by 100 new particles, the i-th
        made from the i-th batch of draws. */
    method CreateConfetti(draws: seq<ParticleDraw>)
      requires IsConfettiDraw(draws)
      modifies this
      ensures State() == old(State()).(confetti := Confetti(draws, canvas))
    {
      confetti := [];
      for i := 0 to ConfettiCount
        invariant State() == old(State()).(confetti := confetti)
        invariant |confetti| == i
        invariant forall j | 0 <= j < i :: confetti[j] == MakeParticle(draws[j], canvas)
      {
        confetti := confetti + [MakeParticle(draws[i], canvas)];
      }
    }

    /** resetBall: `r` is the draw for the vertical speed. */
    method ResetBall(r: real)
      modifies this
      ensures State() == BallReset(old(State()), canvas, r)
    {
      ballX := canvas.width / 2.0;
      ballY := canvas.height / 2.0;
      ballSpeedX := if ballSpeedX > 0.0 then -Abs(ballSpeedX) else Abs(ballSpeedX);
      ballSpeedY := r * 14.0 - 7.0;
    }

    /** restartGame; the score display it refreshes is not modelled. */
    method RestartGame(r: real)
      requires Valid()
      modifies this
      ensures State() == Restarted(old(State()), canvas, r)
      ensures Valid()
    {
      RestartedValid(State(), canvas, r);
      player1Score := 0;
      player2Score := 0;
      gameOver := false;
      winner := NoWinner;
      confetti := [];
      ballSpeedX := InitialBallSpeed;
      ballSpeedY := InitialBallSpeed;
      ResetBall(r);
    }

    /** checkWinner: `draws` are the draws createConfetti consumes on a win. */
    method CheckWinner(draws: seq<ParticleDraw>)
      requires IsConfettiDraw(draws)
      modifies this
      ensures State() == WinnerChecked(old(State()), canvas, draws)
    {
      if player1Score >= WinningScore {
        gameOver := true;
        winner := Player1;
        CreateConfetti(draws);
      } else if player2Score >= WinningScore {
        gameOver := true;
        winner := Player2;
        CreateConfetti(draws);
      }
    }

    /** The first half of updateAI: the height it steers the paddle's centre
        to. `rAim` is the draw compared with the prediction accuracy, `rError`
        the draw that scales the aiming error. */
    method TargetY(rAim: real, rError: real) returns (targetY: real)
      requires ValidCanvas(canvas)
      ensures targetY == AITarget(State(), canvas, rAim, rError)
    {
      var profile := ProfileOf(difficulty);
      targetY := rightPaddleY + PaddleHeight / 2.0;
      if ballSpeedX > 0.0 {
        var ballDistanceX := canvas.width - BallRadius - ballX;
        var predictedY := ballY + ballSpeedY * (ballDistanceX / ballSpeedX);
        assert predictedY == Prediction(State().ball, canvas);
        predictedY := FoldPrediction(predictedY, canvas.height);
        if rAim > profile.predictionAccuracy {
          predictedY := predictedY + (rError * 2.0 - 1.0) * profile.errorMargin;
        }
        targetY := predictedY;
      }
    }

    /** updateAI: a step of the right paddle towards the target, proportional
        to the distance, then the clamp to the court. */
    method UpdateAI(rAim: real, rError: real)
      requires ValidCanvas(canvas)
      modifies this
      ensures State() == old(State()).(rightPaddleY := AIPaddle(old(State()), canvas, rAim, rError))
      ensures 0.0 <= rightPaddleY <= canvas.height - PaddleHeight
    {
      var profile := ProfileOf(difficulty);
      var targetY := TargetY(rAim, rError);
      var paddleCenter := rightPaddleY + PaddleHeight / 2.0;
      var distanceToTarget := targetY - paddleCenter;
      rightPaddleY := rightPaddleY + distanceToTarget * profile.reactionSpeed * PaddleSpeed;
      if rightPaddleY < 0.0 {
        rightPaddleY := 0.0;
      } else if rightPaddleY + PaddleHeight > canvas.height {
        rightPaddleY := canvas.height - PaddleHeight;
      }
    }

    /** The left paddle's part of update: w moves it up, s down. */
    method MoveLeftPaddle()
      modifies this
      ensures State() == old(State()).(leftPaddleY := HumanMove(old(leftPaddleY), wPressed, sPressed, canvas.height))
    {
      if wPressed && leftPaddleY > 0.0 {
        leftPaddleY := leftPaddleY - PaddleSpeed;
      }
      if sPressed && leftPaddleY < canvas.height - PaddleHeight {
        leftPaddleY := leftPaddleY + PaddleSpeed;
      }
    }

    /** The right paddle's part of update: the arrow keys in two-player mode,
        the AI otherwise. */
    method MoveRightPaddle(rAim: real, rError: real)
      requires ValidCanvas(canvas)
      modifies this
      ensures State() == old(State()).(rightPaddleY := RightPaddleMove(old(State()), canvas, rAim, rError))
    {
      if gameMode == TwoPlayers {
        if upPressed && rightPaddleY > 0.0 {
          rightPaddleY := rightPaddleY - PaddleSpeed;
        }
        if downPressed && rightPaddleY < canvas.height - PaddleHeight {
          rightPaddleY := rightPaddleY + PaddleSpeed;
        }
      } else {
        UpdateAI(rAim, rError);
      }
    }

    /** The ball part of update: move, bounce off the walls, then off the left
        and the right paddle. */
    method MoveBall()
      modifies this
      ensures State() == old(State()).(ball := BallFlight(old(State()).ball, leftPaddleY, rightPaddleY, canvas))
    {
      ballX := ballX + ballSpeedX;
      ballY := ballY + ballSpeedY;
      BounceOffWalls();
      BounceOffLeftPaddle();
      BounceOffRightPaddle();
    }

    method BounceOffWalls()
      modifies this
      ensures State() == old(State()).(ball := WallBounce(old(State()).ball, canvas.height))
    {
      if ballY - BallRadius < 0.0 || ballY + BallRadius > canvas.height {
        ballSpeedY := -ballSpeedY;
      }
    }

    method BounceOffLeftPaddle()
      modifies this
      ensures State() == old(State()).(ball := LeftPaddleBounce(old(State()).ball, leftPaddleY))
    {
      if ballX - BallRadius < PaddleWidth && ballY > leftPaddleY && ballY < leftPaddleY + PaddleHeight {
        ballSpeedX := -ballSpeedX * HitSpeedUp;
        var deltaY := ballY - (leftPaddleY + PaddleHeight / 2.0);
        ballSpeedY := deltaY * Deflection;
      }
    }

    method BounceOffRightPaddle()
      modifies this
      ensures State() == old(State()).(ball := RightPaddleBounce(old(State()).ball, rightPaddleY, canvas.width))
    {
      if ballX + BallRadius > canvas.width - PaddleWidth && ballY > rightPaddleY && ballY < rightPaddleY + PaddleHeight {
        ballSpeedX := -ballSpeedX * HitSpeedUp;
        var deltaY := ballY - (rightPaddleY + PaddleHeight / 2.0);
        ballSpeedY := deltaY * Deflection;
      }
    }

    /** The scoring part of update; the score display it refreshes is not
        modelled. */
    method CheckPoint(d: TickDraws)
      requires IsTickDraws(d)
      modifies this
      ensures State() == Scoring(old(State()), canvas, d)
    {
      if ballX < 0.0 {
        player2Score := player2Score + 1;
        CheckWinner(d.confetti);
        ResetBall(d.serve);
      } else if ballX > canvas.width {
        player1Score := player1Score + 1;
        CheckWinner(d.confetti);
        ResetBall(d.serve);
      }
    }

    /** update, one animation frame; `d` holds the draws the frame may use. */
    method Update(d: TickDraws)
      requires Valid() && IsTickDraws(d)
      modifies this
      ensures State() == Ticked(old(State()), canvas, d)
      ensures Valid()
    {
      TickedValid(State(), canvas, d);
      RightPaddleIgnoresLeftPaddle(State(), canvas, d.aim, d.aimError, HumanMove(leftPaddleY, wPressed, sPressed, canvas.height));
      MoveLeftPaddle();
      MoveRightPaddle(d.aim, d.aimError);
      if !gameOver {
        MoveBall();
        CheckPoint(d);
      }
    }

    /** setGameMode: the new mode, then a restart. */
    method SetGameMode(mode: Mode, r: real)
      requires Valid()
      modifies this
      ensures State() == Restarted(old(State()).(mode := mode), canvas, r)
      ensures Valid()
    {
      gameMode := mode;
      RestartGame(r);
    }

    /** setDifficulty: the new difficulty, then a restart. */
    method SetDifficulty(level: Difficulty, r: real)
      requires Valid()
      modifies this
      ensures State() == Restarted(old(State()).(difficulty := level), canvas, r)
      ensures Valid()
    {
      difficulty := level;
      RestartGame(r);
    }
  }
}
