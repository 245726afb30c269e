/**
  The scenarios of fnopt_test.go, proved from the engine's contracts alone:
  a three-field configuration, options that set one field each, and an
  option that always fails.
 */
module FnOptClients {
  import opened Wrappers
  import opened FnOpt

  datatype TestConfig = TestConfig(count: int, doThing: bool, otherThing: bool)

  /** The error `errWith`. */
  datatype TestError = ErrWith

  /** Go's zero value of TestConfig. */
  const Zero := TestConfig(0, false, false)

  function WithCount(count: int): TestConfig -> TestConfig
  {
    (cfg: TestConfig) => cfg.(count := count)
  }

  function WithDoThing(doThing: bool): TestConfig -> TestConfig
  {
    (cfg: TestConfig) => cfg.(doThing := doThing)
  }

  function WithCountE(count: int): TestConfig -> Outcome<TestConfig, TestError>
  {
    (cfg: TestConfig) => Ok(cfg.(count := count))
  }

  function WithDoThingE(doThing: bool): TestConfig -> Outcome<TestConfig, TestError>
  {
    (cfg: TestConfig) => Ok(cfg.(doThing := doThing))
  }

  function WithError(): TestConfig -> Outcome<TestConfig, TestError>
  {
    (cfg: TestConfig) => Fail(cfg, ErrWith)
  }

  /** New: the options' fields are set, the untouched one stays at its zero value. */
  method NewSetsOnlyGivenFields()
  {
    var cfg := New(Zero, [WithCount(10), WithDoThing(true)]);
    assert cfg.val == TestConfig(10, true, false);
  }

  /** From: the options override preset fields, the untouched one keeps its preset value. */
  method FromKeepsUntouchedFields()
  {
    var cfg := new Box(TestConfig(5, true, true));
    From(cfg, [WithCount(10), WithDoThing(false)]);
    assert cfg.val == TestConfig(10, false, true);
  }

  /** NewE: with successful options there is a value and no error. */
  method NewESucceeds()
  {
    var cfg, err := NewE(Zero, [WithCountE(10), WithDoThingE(true)]);
    assert err.None? && cfg != null && cfg.val == TestConfig(10, true, false);
  }

  /** NewE: a failing option yields no value and exactly its error. */
  method NewEFails()
  {
    var cfg, err := NewE(Zero, [WithCountE(10), WithDoThingE(true), WithError()]);
    assert err == Some(ErrWith) && cfg == null;
  }

  /** FromE: the failure is reported and the earlier options' changes remain. */
  method FromEFailsWithoutRollback()
  {
    var cfg := new Box(TestConfig(5, true, true));
    var err := FromE(cfg, [WithCountE(10), WithDoThingE(false), WithError()]);
    assert err == Some(ErrWith) && cfg.val == TestConfig(10, false, true);
  }
}
