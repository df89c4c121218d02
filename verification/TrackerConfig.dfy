/** The Kconfig values the report loop depends on, and the bounds assumed of calls into code that
    is not part of this model. */
module TrackerConfig {
  import Assistance
  import CloudLink

  /** How long, in milliseconds, the calls without a configured timeout may take: boot up to the
      first cycle, the driver calls between two blocking ones, one change of the modem's
      functional mode, one telemetry message, one location message, one session pause. */
  datatype Bounds = Bounds(bootMs: nat, driverMs: nat, modeMs: nat, sendMs: nat, locationMs: nat, pauseMs: nat)

  datatype Config = Config(
    build: CloudLink.Build,
    agnss: bool, assist: Assistance.Settings,
    external: bool, powerCycle: bool, modemFallback: bool,
    motionWake: bool, publishWithoutFix: bool,
    sleepS: nat, marginS: nat, intervalS: nat,
    onboardFixS: nat, externalFixS: nat, assistedFixS: nat, extraFixS: nat, proactiveS: nat,
    lteS: nat, connectBudgetS: nat, modemTimeS: nat, surgeS: nat,
    warmupMs: nat, recoveryMin: nat, rebootMin: nat, settleCycles: nat,
    bounds: Bounds)

  const MINUTE := 60_000

  function WatchdogMs(c: Config): nat {
    (c.sleepS + c.marginS) * 1000
  }

  function SleepMs(c: Config): nat {
    c.sleepS * 1000
  }

  function LteMs(c: Config): nat {
    c.lteS * 1000
  }

  function IntervalMs(c: Config): nat {
    c.intervalS * 1000
  }

  function SurgeMs(c: Config): nat {
    c.surgeS * 1000
  }

  function RecoveryMs(c: Config): nat {
    c.recoveryMin * MINUTE
  }

  function RebootMs(c: Config): nat {
    c.rebootMin * MINUTE
  }

  /** The Kconfig defaults, with generous bounds for the rest. */
  const DEFAULTS := Config(
    CloudLink.Build(false, false, false),
    true, Assistance.Settings(1800, 180, true, true),
    true, true, true,
    true, false,
    540, 300, 60,
    120, 60, 90, 5, 5,
    120, 240, 60, 600,
    500, 30, 120, 1,
    Bounds(60_000, 2_000, 10_000, 60_000, 60_000, 10_000))
}
