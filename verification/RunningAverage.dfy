/** The running average over a window of recent values, with a cached sum. Models utilities/runAvg/runAvg.go. */
module RunningAverage {
  import opened Workload

  datatype Data = Data(id: string, val: real)

  ghost function WindowSum(window: seq<Data>): real {
    if window == [] then 0.0 else WindowSum(window[..|window| - 1]) + window[|window| - 1].val
  }

  lemma {:induction false} SumConcat(a: seq<Data>, b: seq<Data>)
    ensures WindowSum(a + b) == WindowSum(a) + WindowSum(b)
  {
    if b == [] {
      assert a + b == a;
    } else {
      assert (a + b)[..|a + b| - 1] == a + b[..|b| - 1];
      SumConcat(a, b[..|b| - 1]);
    }
  }

  lemma SumOne(d: Data)
    ensures WindowSum([d]) == d.val
  {
    assert [d][..0] == [];
  }

  lemma SumBetween(a: seq<Data>, d: Data, b: seq<Data>)
    ensures WindowSum(a + [d] + b) == WindowSum(a + b) + d.val
  {
    SumOne(d);
    SumConcat(a + [d], b);
    SumConcat(a, [d]);
    SumConcat(a, b);
  }

  lemma SplitAt(window: seq<Data>, k: nat)
    requires k < |window|
    ensures window == window[..k] + [window[k]] + window[k + 1..]
  {
  }

  lemma SumWithout(window: seq<Data>, k: nat)
    requires k < |window|
    ensures WindowSum(window) == WindowSum(window[..k] + window[k + 1..]) + window[k].val
  {
    SplitAt(window, k);
    SumBetween(window[..k], window[k], window[k + 1..]);
  }

  /** The window after one more value: it grows while it is below the size, otherwise it slides. */
  function Slide(window: seq<Data>, size: int, d: Data): seq<Data>
    requires window != [] || size > 0
  {
    if |window| < size then window + [d] else window[1..] + [d]
  }

  /** The position of the first element with an id, or the length if there is none. */
  function Find(window: seq<Data>, id: string): (k: nat)
    ensures k <= |window|
    ensures k < |window| ==> window[k].id == id
    ensures forall j :: 0 <= j < k ==> window[j].id != id
  {
    if window == [] || window[0].id == id then 0 else Find(window[1..], id) + 1
  }

  class Calculator {
    var window: seq<Data>
    var windowSize: int
    var currentSum: real

    constructor (windowSize: int)
      ensures Valid() && window == [] && this.windowSize == windowSize
    {
      this.windowSize := windowSize;
      window, currentSum := [], 0.0;
    }

    /** The cached sum is the sum of the window. */
    ghost predicate Valid()
      reads this
    {
      currentSum == WindowSum(window)
    }

    /** A caller must leave room: with size zero or less and an empty window there is no element to drop. */
    method Calculate(d: Data) returns (average: real)
      requires Valid() && (window != [] || windowSize > 0)
      modifies this`window, this`currentSum
      ensures Valid() && window == Slide(old(window), windowSize, d)
      ensures average == WindowSum(window) / |window| as real
    {
      SumOne(d);
      if |window| < windowSize {
        SumConcat(window, [d]);
        window := window + [d];
        currentSum := currentSum + d.val;
      } else {
        var front := window[0];
        SumOne(front);
        SumConcat([front], window[1..]);
        SumConcat(window[1..], [d]);
        assert window == [front] + window[1..];
        currentSum := currentSum - front.val;
        window := window[1..];
        window := window + [d];
        currentSum := currentSum + d.val;
      }
      average := currentSum / |window| as real;
    }

    /** Removes the first element with the id, if any. */
    method RemoveFromWindow(id: string) returns (removed: Option<Data>)
      requires Valid()
      modifies this`window, this`currentSum
      ensures Valid()
      ensures var k, w := Find(old(window), id), old(window);
              if k < |w| then removed == Some(w[k]) && window == w[..k] + w[k + 1..]
              else removed == None && window == w
    {
      var k := 0;
      while k < |window|
        invariant 0 <= k <= |window| && window == old(window) && Valid()
        invariant forall j :: 0 <= j < k ==> window[j].id != id
      {
        if window[k].id == id {
          var element := window[k];
          SumWithout(window, k);
          FindIs(window, id, k);
          window := window[..k] + window[k + 1..];
          currentSum := currentSum - element.val;
          return Some(element);
        }
        k := k + 1;
      }
      FindIs(window, id, k);
      return None;
    }
  }

  lemma FindIs(window: seq<Data>, id: string, k: nat)
    requires k <= |window| && (k < |window| ==> window[k].id == id)
    requires forall j :: 0 <= j < k ==> window[j].id != id
    ensures Find(window, id) == k
  {
  }

  /** The package: one calculator, made on first use. */
  class Singleton {
    var rac: Calculator?

    constructor ()
      ensures rac == null
    {
      rac := null;
    }

    ghost predicate Valid()
      reads this, rac
    {
      rac != null ==> rac.Valid()
    }

    ghost function Window(): seq<Data>
      reads this, rac
    {
      if rac == null then [] else rac.window
    }

    method GetInstance(windowSize: int) returns (r: Calculator)
      requires Valid()
      modifies this, rac
      ensures Valid() && rac == r && r.windowSize == windowSize && r.window == old(Window())
      ensures if old(rac) == null then fresh(r) else r == old(rac)
    {
      if rac == null {
        rac := new Calculator(windowSize);
      } else if windowSize != rac.windowSize {
        rac.windowSize := windowSize;
      }
      r := rac;
    }

    /** Back to an empty window of size zero. */
    method Init()
      requires Valid()
      modifies this, rac
      ensures Valid() && rac != null && rac.windowSize == 0 && Window() == []
    {
      if rac == null {
        rac := new Calculator(0);
      }
      rac.window, rac.windowSize, rac.currentSum := [], 0, 0.0;
    }

    method Calc(d: Data, windowSize: int) returns (average: real)
      requires Valid() && (Window() != [] || windowSize > 0)
      modifies this, rac
      ensures Valid() && Window() == Slide(old(Window()), windowSize, d)
      ensures rac != null && if old(rac) == null then fresh(rac) else rac == old(rac)
      ensures average == WindowSum(Window()) / |Window()| as real
    {
      var r := GetInstance(windowSize);
      average := r.Calculate(d);
    }

    method Remove(id: string) returns (removed: Option<Data>)
      requires Valid()
      modifies rac
      ensures Valid()
      ensures var k, w := Find(old(Window()), id), old(Window());
              if k < |w| then removed == Some(w[k]) && Window() == w[..k] + w[k + 1..]
              else removed == None && Window() == w
    {
      if rac == null {
        return None;
      }
      removed := rac.RemoveFromWindow(id);
    }
  }

  // ----- what the window holds

  ghost function SlideAll(size: nat, ds: seq<Data>): (w: seq<Data>)
    requires size >= 1
  {
    if ds == [] then [] else Slide(SlideAll(size, ds[..|ds| - 1]), size, ds[|ds| - 1])
  }

  /** With a fixed size and no removals the window is the last `size` values, so the average is their plain mean. */
  lemma {:induction false} WindowIsRecent(size: nat, ds: seq<Data>)
    requires size >= 1
    ensures SlideAll(size, ds) == if |ds| <= size then ds else ds[|ds| - size..]
  {
    if ds != [] {
      WindowIsRecent(size, ds[..|ds| - 1]);
      assert ds == ds[..|ds| - 1] + [ds[|ds| - 1]];
    }
  }

  /** A smaller size given later does not shrink a window that is already longer: the average then covers more
      values than asked for, exactly when the window was longer before. */
  lemma SlideRespectsSizeIff(window: seq<Data>, size: int, d: Data)
    requires size >= 1
    ensures |Slide(window, size, d)| <= size <==> |window| <= size
  {
  }
}
