/**
 * The V5 smart ports: a map from port number to the device configured
 * there. The only device kind is a motor, which keeps its brake mode,
 * encoder units and output voltage and publishes every change.
 */
module SmartDevices {
  import opened Common
  import opened Interface

  /** The kind of device a frontend configures on a port. */
  datatype SmartDeviceSpec = MotorSpec

  datatype PortNotConfiguredError = PortNotConfiguredError(port: u32)

  datatype IncorrectDeviceTypeError = IncorrectDeviceTypeError(port: u32, expected: SmartDeviceSpec, actual: SmartDeviceSpec)

  /** The two `bail!` errors of the motor setters, with the rejected code. */
  datatype MotorError = InvalidEncoderUnit(units: u32) | InvalidBrakeMode(mode: u32)

  /**
   * The `Default` variants of the brake mode and encoder unit enums; their
   * declarations are not part of this model, so the first variant of each
   * is taken.
   */
  const DEFAULT_BRAKE_MODE: MotorBrakeMode := Coast
  const DEFAULT_ENCODER_UNITS: MotorEncoderUnits := Degrees

  /** The warning `set_output_volts` sends; an `i8` below -127 can only be -128. */
  const VOLTAGE_WARNING: string := "Motor voltage out of range: -128 < -127"

  /** `Ord::clamp`: the nearest value of `lo..=hi`. */
  function Clamp(v: int, lo: int, hi: int): (r: int)
    requires lo <= hi
    ensures lo <= r <= hi
    ensures lo <= v <= hi ==> r == v
    ensures v < lo ==> r == lo
    ensures v > hi ==> r == hi
  {
    if v < lo then lo else if v > hi then hi else v
  }

  /** The encoder-unit codes of `set_encoder_units`: 0, 1, 2; anything else is rejected. */
  function EncoderUnitsFromCode(code: u32): (r: Option<MotorEncoderUnits>)
    ensures r.Some? <==> code <= 2
  {
    if code == 0 then Some(Degrees)
    else if code == 1 then Some(Rotations)
    else if code == 2 then Some(Counts)
    else None
  }

  /** The code that selects each encoder unit. */
  function EncoderUnitsCode(units: MotorEncoderUnits): (c: u32)
    ensures c <= 2
  {
    match units
    case Degrees => 0
    case Rotations => 1
    case Counts => 2
  }

  /** Every unit has exactly one code, and every accepted code names exactly one unit. */
  lemma EncoderUnitsCodeRoundTrip(units: MotorEncoderUnits, code: u32)
    ensures EncoderUnitsFromCode(EncoderUnitsCode(units)) == Some(units)
    ensures EncoderUnitsFromCode(code).Some? ==> EncoderUnitsCode(EncoderUnitsFromCode(code).value) == code
  {
  }

  /** The brake-mode codes of `set_brake_mode`: 0, 1, 2; anything else is rejected. */
  function BrakeModeFromCode(code: u32): (r: Option<MotorBrakeMode>)
    ensures r.Some? <==> code <= 2
  {
    if code == 0 then Some(Coast)
    else if code == 1 then Some(Brake)
    else if code == 2 then Some(Hold)
    else None
  }

  /** The code that selects each brake mode. */
  function BrakeModeCode(mode: MotorBrakeMode): (c: u32)
    ensures c <= 2
  {
    match mode
    case Coast => 0
    case Brake => 1
    case Hold => 2
  }

  /** Every brake mode has exactly one code, and every accepted code names exactly one mode. */
  lemma BrakeModeCodeRoundTrip(mode: MotorBrakeMode, code: u32)
    ensures BrakeModeFromCode(BrakeModeCode(mode)) == Some(mode)
    ensures BrakeModeFromCode(code).Some? ==> BrakeModeCode(BrakeModeFromCode(code).value) == code
  {
  }

  class Motor {
    const port: u32
    var brakeMode: MotorBrakeMode
    var encoderUnits: MotorEncoderUnits
    var outputVolts: i8
    const interface: SimulatorInterface

    /** The output voltage stays in `-127..=127`. */
    predicate Valid()
      reads this
    {
      -127 <= outputVolts <= 127
    }

    /** `Motor::new`: default brake mode and units, 0 V, nothing published. */
    constructor (port: u32, interface: SimulatorInterface)
      ensures Valid()
      ensures this.port == port && this.interface == interface
      ensures brakeMode == DEFAULT_BRAKE_MODE && encoderUnits == DEFAULT_ENCODER_UNITS && outputVolts == 0
    {
      this.port := port;
      brakeMode := DEFAULT_BRAKE_MODE;
      encoderUnits := DEFAULT_ENCODER_UNITS;
      outputVolts := 0;
      this.interface := interface;
    }

    /** The `MotorUpdated` event that describes this motor's current state. */
    function Snapshot(): SimulatorEvent
      reads this
    {
      MotorUpdated(port, brakeMode, encoderUnits, outputVolts)
    }

    /** `publish`: send the current state. */
    method Publish()
      modifies interface
      ensures interface.sent == old(interface.sent) + [Snapshot()]
    {
      interface.Send(Snapshot());
    }

    /**
     * `set_output_volts`: a voltage below -127 is reported with a warning;
     * the stored voltage is the request clamped to `-127..=127`, and the new
     * state is published.
     */
    method SetOutputVolts(volts: i8)
      modifies this`outputVolts, interface
      ensures Valid()
      ensures outputVolts == Clamp(volts, -127, 127)
      ensures volts != -128 ==> outputVolts == volts
      ensures interface.sent == old(interface.sent)
        + (if volts < -127 then [Warning(VOLTAGE_WARNING)] else [])
        + [Snapshot()]
    {
      if volts < -127 {
        interface.Send(Warning(VOLTAGE_WARNING));
      }
      outputVolts := Clamp(volts, -127, 127);
      Publish();
    }

    /** `set_encoder_units`: an accepted code changes the units and publishes; any other changes and sends nothing. */
    method SetEncoderUnits(units: u32) returns (r: Result<(), MotorError>)
      modifies this`encoderUnits, interface
      ensures r.Ok? <==> EncoderUnitsFromCode(units).Some?
      ensures r.Ok? ==> encoderUnits == EncoderUnitsFromCode(units).value
      ensures r.Ok? ==> interface.sent == old(interface.sent) + [Snapshot()]
      ensures r.Err? ==> r.error == InvalidEncoderUnit(units)
      ensures r.Err? ==> encoderUnits == old(encoderUnits) && interface.sent == old(interface.sent)
    {
      var decoded := EncoderUnitsFromCode(units);
      if decoded.None? {
        return Err(InvalidEncoderUnit(units));
      }
      encoderUnits := decoded.value;
      Publish();
      r := Ok(());
    }

    /** `set_brake_mode`: an accepted code changes the mode and publishes; any other changes and sends nothing. */
    method SetBrakeMode(mode: u32) returns (r: Result<(), MotorError>)
      modifies this`brakeMode, interface
      ensures r.Ok? <==> BrakeModeFromCode(mode).Some?
      ensures r.Ok? ==> brakeMode == BrakeModeFromCode(mode).value
      ensures r.Ok? ==> interface.sent == old(interface.sent) + [Snapshot()]
      ensures r.Err? ==> r.error == InvalidBrakeMode(mode)
      ensures r.Err? ==> brakeMode == old(brakeMode) && interface.sent == old(interface.sent)
    {
      var decoded := BrakeModeFromCode(mode);
      if decoded.None? {
        return Err(InvalidBrakeMode(mode));
      }
      brakeMode := decoded.value;
      Publish();
      r := Ok(());
    }
  }

  /** A configured device; the motor is shared, so changes made through `get_mut` are seen by later lookups. */
  datatype SmartDevice = MotorDevice(motor: Motor)
  {
    /** `From<&SmartDevice> for SmartDeviceSpec`: the kind of device. */
    function Spec(): SmartDeviceSpec
    {
      match this
      case MotorDevice(_) => MotorSpec
    }

    /** `as_motor` / `as_motor_mut`: every device is a motor, so this always succeeds. */
    function AsMotor(): (r: Result<Motor, IncorrectDeviceTypeError>)
      ensures r.Ok? && Spec() == MotorSpec
      ensures r.value == motor
    {
      match this
      case MotorDevice(m) => Ok(m)
    }
  }

  /** A device `SmartDevice::new` has just made for `port`: a default motor on that port. */
  predicate IsNewDevice(d: SmartDevice, port: u32, interface: SimulatorInterface)
    reads d.motor
  {
    d.motor.port == port && d.motor.interface == interface &&
    d.motor.brakeMode == DEFAULT_BRAKE_MODE && d.motor.encoderUnits == DEFAULT_ENCODER_UNITS &&
    d.motor.outputVolts == 0
  }

  /** The device already on `port` matches the requested spec, so `update_specs` keeps it. */
  predicate Keeps(devices: map<u32, SmartDevice>, specs: map<u32, SmartDeviceSpec>, port: u32)
    requires port in specs
  {
    port in devices && devices[port].Spec() == specs[port]
  }

  class SmartPorts {
    var devices: map<u32, SmartDevice>
    const interface: SimulatorInterface

    /** `SmartPorts::new`: no port configured. */
    constructor (interface: SimulatorInterface)
      ensures devices == map[] && this.interface == interface
    {
      devices := map[];
      this.interface := interface;
    }

    /**
     * `update_specs`: every listed port ends up holding a device of the
     * listed kind. A port whose device already has that kind keeps the
     * very same device; any other listed port gets a fresh default device.
     * Ports that are not listed are neither removed nor touched.
     */
    method UpdateSpecs(specs: map<u32, SmartDeviceSpec>)
      modifies this`devices
      ensures devices.Keys == old(devices).Keys + specs.Keys
      ensures forall port :: port in specs ==> devices[port].Spec() == specs[port]
      ensures forall port :: port in old(devices) && port !in specs ==> devices[port] == old(devices)[port]
      ensures forall port :: port in specs && Keeps(old(devices), specs, port) ==> devices[port] == old(devices)[port]
      ensures forall port :: port in specs && !Keeps(old(devices), specs, port) ==>
        fresh(devices[port].motor) && IsNewDevice(devices[port], port, interface)
    {
      var remaining := specs.Keys;
      while remaining != {}
        invariant remaining <= specs.Keys
        invariant devices.Keys == old(devices).Keys + (specs.Keys - remaining)
        invariant forall port :: port in specs.Keys - remaining ==> devices[port].Spec() == specs[port]
        invariant forall port :: port in old(devices) && port !in specs.Keys - remaining ==> devices[port] == old(devices)[port]
        invariant forall port :: port in specs.Keys - remaining && Keeps(old(devices), specs, port) ==>
          devices[port] == old(devices)[port]
        invariant forall port :: port in specs.Keys - remaining && !Keeps(old(devices), specs, port) ==>
          fresh(devices[port].motor) && IsNewDevice(devices[port], port, interface)
        decreases remaining
      {
        var port :| port in remaining;
        var spec := specs[port];
        if !(port in devices && devices[port].Spec() == spec) {
          var motor := new Motor(port, interface);
          devices := devices[port := MotorDevice(motor)];
        }
        remaining := remaining - {port};
      }
    }

    /** `get` / `get_mut`: the device on `port`, or `PortNotConfigured` naming the port. */
    function Get(port: u32): (r: Result<SmartDevice, PortNotConfiguredError>)
      reads this
      ensures r.Ok? <==> port in devices
      ensures r.Ok? ==> r.value == devices[port]
      ensures r.Err? ==> r.error == PortNotConfiguredError(port)
    {
      if port in devices then Ok(devices[port]) else Err(PortNotConfiguredError(port))
    }
  }

  /** `update_specs` is idempotent: a second pass with the same specs leaves the devices of the first. */
  method UpdateSpecsTwice(ports: SmartPorts, specs: map<u32, SmartDeviceSpec>) returns (afterFirst: map<u32, SmartDevice>)
    modifies ports
    ensures ports.devices == afterFirst
    ensures forall port :: port in specs ==> ports.Get(port).Ok? && ports.Get(port).value.Spec() == specs[port]
  {
    ports.UpdateSpecs(specs);
    afterFirst := ports.devices;
    ports.UpdateSpecs(specs);
  }
}
