/**
 * The tutorial test `SumSquareTest.testAP`, run on the model: two square
 * nodes, each with one `asyncproc.ScalarInput`, feed the two inputs of a
 * sum node. Each node fires when its last parameter completes; a firing is
 * followed here by the node's `run()`.
 */
module Scenarios {
  import opened Tokens
  import TaskNode
  import Promises
  import Asyncproc

  /** `Square.run()`: `param.current()` squared; a null token fails on unboxing. */
  function SquareRun(arg: Option<Value>): Result<Value>
  {
    if arg.None? then Throw(NullPointer) else Return(arg.value * arg.value)
  }

  /** `Sum.run()`: the sum of both parameters' tokens; a null token fails on unboxing. */
  function SumRun(x: Option<Value>, y: Option<Value>): Result<Value>
  {
    if x.None? || y.None? then Throw(NullPointer) else Return(x.value + y.value)
  }

  /**
   * One `Square` node of `testAP`: its parameter receives `v`, which opens
   * the node's only pin, so it fires once and completes its result with
   * `v * v`.
   */
  method SquareNode(v: Value) returns (out: Promises.Outcome<Option<Value>>, ghost fired: nat)
    ensures out == Promises.Value(Some(v * v))
    ensures fired == 1
  {
    var node := new TaskNode.AsyncProc();
    var param := new Asyncproc.ScalarInput(node);
    var result := new Promises.Promise<Option<Value>>();
    assert node.blocked == [true];
    var _ := param.OnComplete(Some(v));
    var r := SquareRun(param.current);
    var _ := result.Complete(Some(r.value));
    out, fired := result.state, node.fired;
  }

  /**
   * The `Sum` node of `testAP`: its two parameters receive `x` and `y`;
   * the second opens the last pin, so it fires once and completes its
   * result with `x + y`.
   */
  method SumNode(x: Value, y: Value) returns (out: Promises.Outcome<Option<Value>>, ghost fired: nat)
    ensures out == Promises.Value(Some(x + y))
    ensures fired == 1
  {
    var node := new TaskNode.AsyncProc();
    var paramX := new Asyncproc.ScalarInput(node);
    var paramY := new Asyncproc.ScalarInput(node);
    var result := new Promises.Promise<Option<Value>>();
    assert node.blocked == [true, true];
    var _ := paramX.OnComplete(Some(x));
    assert node.blocked == [false, true] && node.fired == 0;
    var _ := paramY.OnComplete(Some(y));
    var r := SumRun(paramX.current, paramY.current);
    var _ := result.Complete(Some(r.value));
    out, fired := result.state, node.fired;
  }

  /**
   * `testAP`: after `sqX.param.onNext(3)` and `sqY.param.onNext(4)`
   * (the one-token `onNext` of a scalar subscriber is its
   * `onComplete(token)`), each square node fires exactly once and its
   * result, delivered by `subscribe`, completes one input of the sum
   * node; the sum node fires exactly once, and its result is 25.
   */
  method SumSquare() returns (res: Promises.Outcome<Option<Value>>, ghost firings: seq<nat>)
    ensures res == Promises.Value(Some(25))
    ensures firings == [1, 1, 1]
  {
    var resultX, firedX := SquareNode(3);
    var resultY, firedY := SquareNode(4);
    ghost var firedSum;
    res, firedSum := SumNode(resultX.value.value, resultY.value.value);
    firings := [firedX, firedY, firedSum];
  }
}
