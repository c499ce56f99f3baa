/** Encapsulation and inheritance examples: a bank account whose balance only
    moves through guarded deposits and withdrawals, a model whose learning rate
    only takes values in (0, 1], a cleaner that fills missing values, the
    preprocessors that drop missing values (and lowercase text), and the
    extract-transform-load template method. */
module OopBasics {
  import opened Builtins

  // ---------------------------------------------------------------------------
  // BankAccount
  // ---------------------------------------------------------------------------

  /** The balance after `deposit(amount)`: only a positive amount is added. */
  function Deposited(balance: int, amount: int): (b: int)
    ensures amount > 0 ==> b == balance + amount && b > balance
    ensures amount <= 0 ==> b == balance
  {
    if amount > 0 then balance + amount else balance
  }

  /** The balance after `withdraw(amount)`: only an amount with
      0 < amount <= balance is taken off. */
  function Withdrawn(balance: int, amount: int): (b: int)
    ensures 0 < amount <= balance ==> b == balance - amount
    ensures !(0 < amount <= balance) ==> b == balance
    ensures b <= balance
    ensures balance >= 0 ==> b >= 0
  {
    if 0 < amount <= balance then balance - amount else balance
  }

  /** Withdrawing what was just deposited gives the old balance back,
      whenever the balance was not negative. */
  lemma DepositThenWithdraw(balance: int, amount: int)
    requires balance >= 0
    ensures Withdrawn(Deposited(balance, amount), amount) == balance
  {
  }

  /** One call on an account: `deposit(amount)` or `withdraw(amount)`. */
  datatype Transaction = Deposit(amount: int) | Withdraw(amount: int)

  /** The balance after the calls, made in order. */
  function Apply(balance: int, ts: seq<Transaction>): int
    decreases ts
  {
    if ts == [] then balance
    else
      var b := match ts[0]
        case Deposit(a) => Deposited(balance, a)
        case Withdraw(a) => Withdrawn(balance, a);
      Apply(b, ts[1..])
  }

  /** Whatever sequence of deposits and withdrawals is made, a balance that
      starts non-negative stays non-negative. */
  lemma {:induction false} BalanceNeverNegative(balance: int, ts: seq<Transaction>)
    requires balance >= 0
    ensures Apply(balance, ts) >= 0
    decreases ts
  {
    if ts != [] {
      var b := match ts[0]
        case Deposit(a) => Deposited(balance, a)
        case Withdraw(a) => Withdrawn(balance, a);
      BalanceNeverNegative(b, ts[1..]);
    }
  }

  class BankAccount {
    var balance: int

    constructor (balance: int)
      ensures this.balance == balance
    {
      this.balance := balance;
    }

    method Deposit(amount: int)
      modifies this
      ensures balance == Deposited(old(balance), amount)
    {
      if amount > 0 {
        balance := balance + amount;
      }
    }

    method Withdraw(amount: int)
      modifies this
      ensures balance == Withdrawn(old(balance), amount)
    {
      if 0 < amount <= balance {
        balance := balance - amount;
      }
    }

    method GetBalance() returns (b: int)
      ensures b == balance
    {
      b := balance;
    }
  }

  /** The demonstration: 1000, deposit 20, withdraw 100. */
  method AccountDemo() returns (afterDeposit: int, afterWithdraw: int)
    ensures afterDeposit == 1020 && afterWithdraw == 920
  {
    var account := new BankAccount(1000);
    account.Deposit(20);
    afterDeposit := account.GetBalance();
    account.Withdraw(100);
    afterWithdraw := account.GetBalance();
  }

  // ---------------------------------------------------------------------------
  // MLModel
  // ---------------------------------------------------------------------------

  /** The learning rates `set_hyperparameters` accepts. */
  predicate AcceptedLearningRate(lr: real)
  {
    0.0 < lr <= 1.0
  }

  class MLModel {
    var learningRate: real
    var epochs: int

    /** `MLModel()` with its defaults. */
    constructor Default()
      ensures learningRate == 0.01 && epochs == 1000
    {
      learningRate := 0.01;
      epochs := 1000;
    }

    constructor (learningRate: real, epochs: int)
      ensures this.learningRate == learningRate && this.epochs == epochs
    {
      this.learningRate := learningRate;
      this.epochs := epochs;
    }

    method GetHyperparameters() returns (learningRate: real, epochs: int)
      ensures learningRate == this.learningRate && epochs == this.epochs
    {
      learningRate, epochs := this.learningRate, this.epochs;
    }

    /** Takes the new rate only when it lies in (0, 1]; the epochs never change. */
    method SetHyperparameters(learningRate: real)
      modifies this
      ensures AcceptedLearningRate(learningRate) ==> this.learningRate == learningRate
      ensures !AcceptedLearningRate(learningRate) ==> this.learningRate == old(this.learningRate)
      ensures epochs == old(epochs)
      ensures AcceptedLearningRate(old(this.learningRate)) ==> AcceptedLearningRate(this.learningRate)
    {
      if 0.0 < learningRate <= 1.0 {
        this.learningRate := learningRate;
      }
    }
  }

  /** The demonstration: defaults, then 0.05 is taken and 0 is refused. */
  method MLModelDemo() returns (rate1: real, rate2: real, epochs: int)
    ensures rate1 == 0.05 && rate2 == 0.05 && epochs == 1000
  {
    var model := new MLModel.Default();
    model.SetHyperparameters(0.05);
    rate1, epochs := model.GetHyperparameters();
    model.SetHyperparameters(0.0);
    rate2, epochs := model.GetHyperparameters();
  }

  // ---------------------------------------------------------------------------
  // DataCleaner
  // ---------------------------------------------------------------------------

  /** `[x if x is not None else value for x in data]`. */
  function FillMissing<T>(data: seq<Cell<T>>, value: T): (r: seq<Cell<T>>)
    ensures |r| == |data|
    ensures forall i :: 0 <= i < |data| && data[i].Some? ==> r[i] == data[i]
    ensures forall i :: 0 <= i < |data| && data[i].None? ==> r[i] == Some(value)
  {
    if data == [] then []
    else [if data[0].Some? then data[0] else Some(value)] + FillMissing(data[1..], value)
  }

  /** No `None` is left after filling, and filling again changes nothing. */
  lemma FillMissingComplete<T>(data: seq<Cell<T>>, value: T, other: T)
    ensures forall i :: 0 <= i < |data| ==> FillMissing(data, value)[i].Some?
    ensures FillMissing(FillMissing(data, value), other) == FillMissing(data, value)
  {
  }

  class DataCleaner<T> {
    var data: seq<Cell<T>>

    constructor (data: seq<Cell<T>>)
      ensures this.data == data
    {
      this.data := data;
    }

    method MissingValues(value: T)
      modifies this
      ensures data == FillMissing(old(data), value)
    {
      data := FillMissing(data, value);
    }

    method GetCleanedData() returns (d: seq<Cell<T>>)
      ensures d == data
    {
      d := data;
    }
  }

  lemma CleanerDemo()
    ensures FillMissing([Some(1), Some(0), None, Some(3), None, Some(5)], -1)
         == [Some(1), Some(0), Some(-1), Some(3), Some(-1), Some(5)]
  {
  }

  // ---------------------------------------------------------------------------
  // PreProcessor, TextPreProcessor
  // ---------------------------------------------------------------------------

  /** `[x for x in data if x is not None]`. */
  function DropMissing<T(!new)>(data: seq<Cell<T>>): (r: seq<Cell<T>>)
    ensures forall i :: 0 <= i < |r| ==> r[i].Some?
    ensures forall x :: x in r <==> x in data && x.Some?
    ensures |r| <= |data|
  {
    FilterMembers((x: Cell<T>) => x.Some?, data);
    Filter((x: Cell<T>) => x.Some?, data)
  }

  /** Dropping missing values distributes over concatenation, so the kept
      values keep their original order. */
  lemma DropMissingConcat<T(!new)>(a: seq<Cell<T>>, b: seq<Cell<T>>)
    ensures DropMissing(a + b) == DropMissing(a) + DropMissing(b)
  {
    FilterConcat((x: Cell<T>) => x.Some?, a, b);
  }

  /** `[x.lower() for x in data]` over a list that holds no `None`. */
  function LowerAll(data: seq<Cell<string>>): (r: seq<Cell<string>>)
    requires forall i :: 0 <= i < |data| ==> data[i].Some?
    ensures |r| == |data|
    ensures forall i :: 0 <= i < |r| ==> r[i] == Some(Lower(data[i].value))
  {
    if data == [] then [] else [Some(Lower(data[0].value))] + LowerAll(data[1..])
  }

  class PreProcessor<T(!new)> {
    var data: seq<Cell<T>>

    constructor (data: seq<Cell<T>>)
      ensures this.data == data
    {
      this.data := data;
    }

    /** Removes the missing values. */
    method Clean()
      modifies this
      ensures data == DropMissing(old(data))
    {
      data := DropMissing(data);
    }
  }

  class TextPreProcessor {
    var data: seq<Cell<string>>

    constructor (data: seq<Cell<string>>)
      ensures this.data == data
    {
      this.data := data;
    }

    /** The parent's cleaning, then lowercasing of what is left. */
    method Clean()
      modifies this
      ensures data == LowerAll(DropMissing(old(data)))
      ensures forall i :: 0 <= i < |data| ==> data[i].Some?
    {
      data := DropMissing(data);
      data := LowerAll(data);
    }
  }

  /** The text cleaning of a whole list is the text cleaning of its parts,
      side by side: the order of the kept values is the input order. */
  lemma TextCleanConcat(a: seq<Cell<string>>, b: seq<Cell<string>>)
    ensures LowerAll(DropMissing(a + b)) == LowerAll(DropMissing(a)) + LowerAll(DropMissing(b))
  {
    DropMissingConcat(a, b);
    var x, y := DropMissing(a), DropMissing(b);
    var l, r := LowerAll(x + y), LowerAll(x) + LowerAll(y);
    forall i | 0 <= i < |l| ensures l[i] == r[i] {
      if i < |x| {
        assert (x + y)[i] == x[i];
      } else {
        assert (x + y)[i] == y[i - |x|];
      }
    }
  }

  lemma TextPreProcessorDemo(input: seq<Cell<string>>)
    requires input == [Some("Alice"), Some("BOB"), Some("CHarLIe"), None]
    ensures LowerAll(DropMissing(input)) == [Some("alice"), Some("bob"), Some("charlie")]
  {
    var kept := [Some("Alice"), Some("BOB"), Some("CHarLIe")];
    assert input == kept + [None];
    DemoDropMissing(kept);
    DemoLowerNames();
    var r := LowerAll(kept);
    assert |r| == 3;
    assert r[0] == Some("alice") && r[1] == Some("bob") && r[2] == Some("charlie");
    assert r == [Some("alice"), Some("bob"), Some("charlie")];
  }

  lemma DemoDropMissing(kept: seq<Cell<string>>)
    requires kept == [Some("Alice"), Some("BOB"), Some("CHarLIe")]
    ensures DropMissing(kept + [None]) == kept
  {
    DropMissingConcat(kept, [None]);
    assert DropMissing<string>([None]) == [];
    DropMissingNoop(kept);
  }

  lemma DemoLowerNames()
    ensures Lower("Alice") == "alice" && Lower("BOB") == "bob" && Lower("CHarLIe") == "charlie"
  {
    LowerDemo("Alice", "alice");
    LowerDemo("BOB", "bob");
    LowerDemo("CHarLIe", "charlie");
  }

  /** A list without `None` is left as it is. */
  lemma {:induction false} DropMissingNoop<T(!new)>(data: seq<Cell<T>>)
    requires forall i :: 0 <= i < |data| ==> data[i].Some?
    ensures DropMissing(data) == data
  {
    if data != [] {
      DropMissingConcat([data[0]], data[1..]);
      assert data == [data[0]] + data[1..];
      DropMissingNoop(data[1..]);
    }
  }

  /** Checks a concrete lowercase result character by character. */
  lemma LowerDemo(s: string, t: string)
    requires |s| == |t|
    requires forall i :: 0 <= i < |s| ==> LowerChar(s[i]) == t[i]
    ensures Lower(s) == t
  {
  }

  // ---------------------------------------------------------------------------
  // ETLBase, CSVETL, APIETL
  // ---------------------------------------------------------------------------

  /** What `extract` hands back: a list, or (in the base class) an exception
      object that is returned rather than raised. */
  datatype Extracted = ListObj(items: seq<int>) | ErrorObj(error: PyError)

  /** The three classes; each carries the `source` it was built with. */
  datatype Etl = ETLBase(source: string) | CSVETL(source: string) | APIETL(source: string)
  {
    function Extract(): (r: Extracted)
      ensures r.ErrorObj? <==> ETLBase?
      ensures r.ErrorObj? ==> r.error.NotImplementedError?
      ensures r.ListObj? ==> |r.items| == 4
    {
      match this
      case ETLBase(_) => ErrorObj(NotImplementedError("Subclasses must implement this error"))
      case CSVETL(_) => ListObj([1, 2, 3, 5])
      case APIETL(_) => ListObj([4, 5, 6, 7])
    }

    /** `[x*2 for x in data]`: iterating an exception object raises TypeError. */
    function Transform(data: Extracted): (r: Result<seq<int>>)
      ensures data.ListObj? <==> r.Ok?
      ensures data.ListObj? ==> |r.value| == |data.items|
      ensures data.ListObj? ==> forall i :: 0 <= i < |data.items| ==> r.value[i] == 2 * data.items[i]
      ensures data.ErrorObj? ==> r.error.TypeError?
    {
      match data
      case ListObj(items) => Ok(Map((x: int) => x * 2, items))
      case ErrorObj(_) => Raised(TypeError("'NotImplementedError' object is not iterable"))
    }

    /** `etl_process`: what `load` receives, or the exception that stops it. */
    function EtlProcess(): (loaded: Result<seq<int>>)
      ensures loaded == Transform(Extract())
      ensures loaded.Ok? <==> !this.ETLBase?
    {
      Transform(Extract())
    }
  }

  /** The demonstrations: the CSV pipeline loads [2,4,6,10], the API pipeline
      [8,10,12,14], and the base class fails in `transform`. */
  lemma EtlDemo()
    ensures CSVETL("data.csv").EtlProcess() == Ok([2, 4, 6, 10])
    ensures APIETL("https://api.example.com/data").EtlProcess() == Ok([8, 10, 12, 14])
    ensures ETLBase("x").EtlProcess().Raised?
  {
    var csv := CSVETL("data.csv").EtlProcess().value;
    assert |csv| == 4 && csv[0] == 2 && csv[1] == 4 && csv[2] == 6 && csv[3] == 10;
    assert csv == [2, 4, 6, 10];
    var api := APIETL("https://api.example.com/data").EtlProcess().value;
    assert |api| == 4 && api[0] == 8 && api[1] == 10 && api[2] == 12 && api[3] == 14;
    assert api == [8, 10, 12, 14];
  }
}
