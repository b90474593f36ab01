/** The names of the sensors in the four blocks of registers, and that no two blocks share one. */
module SensorNames {
  import opened SensorReads

  const MAIN_1: set<Name> := {
    "vpv1", "ipv1", "ppv1", "vpv2", "ipv2", "ppv2", "vpv3", "ipv3", "ppv3"
  }

  const MAIN_2: set<Name> := {
    "vpv4", "ipv4", "ppv4", "pv4_mode", "pv3_mode", "pv2_mode", "pv1_mode", "pv4_mode_label", "pv3_mode_label"
  }

  const MAIN_3: set<Name> := {
    "pv2_mode_label", "pv1_mode_label", "vgrid", "igrid", "fgrid", "pgrid", "vgrid2", "igrid2", "fgrid2"
  }

  const MAIN_4: set<Name> := {
    "pgrid2", "vgrid3", "igrid3", "fgrid3", "pgrid3", "grid_mode", "grid_mode_label", "total_inverter_power",
    "active_power"
  }

  const MAIN_5: set<Name> := {
    "reactive_power", "apparent_power", "grid_in_out", "grid_in_out_label", "backup_v1", "backup_i1", "backup_f1",
    "load_mode1", "backup_p1"
  }

  const MAIN_6: set<Name> := {
    "backup_v2", "backup_i2", "backup_f2", "load_mode2", "backup_p2", "backup_v3", "backup_i3", "backup_f3",
    "load_mode3"
  }

  const MAIN_7: set<Name> := {
    "backup_p3", "load_p1", "load_p2", "load_p3", "backup_ptotal", "load_ptotal", "ups_load", "temperature_air",
    "temperature_module"
  }

  const MAIN_8: set<Name> := {
    "temperature", "function_bit", "bus_voltage", "nbus_voltage", "vbattery1", "ibattery1", "pbattery1",
    "battery_mode", "battery_mode_label"
  }

  const MAIN_9: set<Name> := {
    "warning_code", "safety_country", "safety_country_label", "work_mode", "work_mode_label", "operation_mode",
    "error_codes", "errors", "e_total"
  }

  const MAIN_10: set<Name> := {
    "e_day", "e_total_exp", "h_total", "e_day_exp", "e_total_imp", "e_day_imp", "e_load_total", "e_load_day",
    "e_bat_charge_total"
  }

  const MAIN_11: set<Name> := {
    "e_bat_charge_day", "e_bat_discharge_total", "e_bat_discharge_day", "diagnose_result", "diagnose_result_label",
    "ppv", "house_consumption", "timestamp"
  }

  const BATTERY_1: set<Name> := {
    "battery_bms", "battery_index", "battery_status", "battery_temperature", "battery_charge_limit",
    "battery_discharge_limit", "battery_error_l", "battery_soc", "battery_soh"
  }

  const BATTERY_2: set<Name> := {
    "battery_modules", "battery_warning_l", "battery_protocol", "battery_error_h", "battery_error",
    "battery_warning_h", "battery_warning", "battery_sw_version", "battery_hw_version"
  }

  const BATTERY_3: set<Name> := {
    "battery_max_cell_temp_id", "battery_min_cell_temp_id", "battery_max_cell_voltage_id",
    "battery_min_cell_voltage_id", "battery_max_cell_temp", "battery_min_cell_temp", "battery_max_cell_voltage",
    "battery_min_cell_voltage"
  }

  const METER_1: set<Name> := {
    "commode", "rssi", "manufacture_code", "meter_test_status", "meter_comm_status", "active_power1",
    "active_power2", "active_power3", "active_power_total"
  }

  const METER_2: set<Name> := {
    "reactive_power_total", "meter_power_factor1", "meter_power_factor2", "meter_power_factor3",
    "meter_power_factor", "meter_freq", "meter_e_total_exp", "meter_e_total_imp", "meter_active_power1"
  }

  const METER_3: set<Name> := {
    "meter_active_power2", "meter_active_power3", "meter_active_power_total", "meter_reactive_power1",
    "meter_reactive_power2", "meter_reactive_power3", "meter_reactive_power_total", "meter_apparent_power1",
    "meter_apparent_power2"
  }

  const METER_4: set<Name> := {
    "meter_apparent_power3", "meter_apparent_power_total", "meter_type", "meter_sw_version", "meter2_active_power",
    "meter2_e_total_exp", "meter2_e_total_imp", "meter2_comm_status", "meter_voltage1"
  }

  const METER_5: set<Name> := {
    "meter_voltage2", "meter_voltage3", "meter_current1", "meter_current2", "meter_current3", "meter_e_total_exp1",
    "meter_e_total_exp2", "meter_e_total_exp3", "meter_e_total_exp_8"
  }

  const METER_6: set<Name> := {
    "meter_e_total_imp1", "meter_e_total_imp2", "meter_e_total_imp3", "meter_e_total_imp_8"
  }

  const MPPT_1: set<Name> := {
    "ppv_total", "pv_channel", "vpv5", "ipv5", "vpv6", "ipv6", "vpv7", "ipv7", "vpv8"
  }

  const MPPT_2: set<Name> := {
    "ipv8", "vpv9", "ipv9", "vpv10", "ipv10", "vpv11", "ipv11", "vpv12", "ipv12"
  }

  const MPPT_3: set<Name> := {
    "vpv13", "ipv13", "vpv14", "ipv14", "vpv15", "ipv15", "vpv16", "ipv16"
  }

  const MAIN_SENSORS: set<Name> :=
    MAIN_1 + MAIN_2 + MAIN_3 + MAIN_4 + MAIN_5 + MAIN_6 + MAIN_7 + MAIN_8 + MAIN_9 + MAIN_10 + MAIN_11

  const BATTERY_SENSORS: set<Name> :=
    BATTERY_1 + BATTERY_2 + BATTERY_3

  const METER_SENSORS: set<Name> :=
    METER_1 + METER_2 + METER_3 + METER_4 + METER_5 + METER_6

  const MPPT_SENSORS: set<Name> :=
    MPPT_1 + MPPT_2 + MPPT_3

  function NamesOf(b: Block): set<Name> {
    match b case Main => MAIN_SENSORS case Battery => BATTERY_SENSORS case Meter => METER_SENSORS case Mppt => MPPT_SENSORS
  }

  // ---------------------------------------------------------------- telling the blocks apart

  function At(name: Name, i: nat): char {
    if i < |name| then name[i] else ' '
  }

  predicate BatteryLike(name: Name) {
    At(name, 0) == 'b' && At(name, 1) == 'a' && At(name, 2) == 't' && !(At(name, 8) == 'm' && At(name, 11) == 'e')
  }

  predicate MeterLike(name: Name) {
    || At(name, 0) == 'm'
    || At(name, 0) == 'c'
    || (At(name, 0) == 'r' && |name| != 14)
    || (At(name, 0) == 'a' && At(name, 1) == 'c' && |name| != 12)
  }

  predicate MpptLike(name: Name) {
    || (At(name, 0) == 'p' && At(name, 1) == 'p' && At(name, 3) == '_')
    || (At(name, 0) == 'p' && At(name, 1) == 'v' && At(name, 2) == '_')
    || ((At(name, 0) == 'v' || At(name, 0) == 'i') && At(name, 1) == 'p' && (|name| == 5 || At(name, 3) >= '5'))
  }

  /** The block of a name, as far as a few of its letters tell. */
  function BlockOf(name: Name): Block {
    if BatteryLike(name) then Battery else if MeterLike(name) then Meter else if MpptLike(name) then Mppt else Main
  }

  lemma Main1()
    ensures forall name :: name in MAIN_1 ==> BlockOf(name) == Main
  {
  }

  lemma Main2()
    ensures forall name :: name in MAIN_2 ==> BlockOf(name) == Main
  {
  }

  lemma Main3()
    ensures forall name :: name in MAIN_3 ==> BlockOf(name) == Main
  {
  }

  lemma Main4()
    ensures forall name :: name in MAIN_4 ==> BlockOf(name) == Main
  {
  }

  lemma Main5()
    ensures forall name :: name in MAIN_5 ==> BlockOf(name) == Main
  {
  }

  lemma Main6()
    ensures forall name :: name in MAIN_6 ==> BlockOf(name) == Main
  {
  }

  lemma Main7()
    ensures forall name :: name in MAIN_7 ==> BlockOf(name) == Main
  {
  }

  lemma Main8()
    ensures forall name :: name in MAIN_8 ==> BlockOf(name) == Main
  {
  }

  lemma Main9()
    ensures forall name :: name in MAIN_9 ==> BlockOf(name) == Main
  {
  }

  lemma Main10()
    ensures forall name :: name in MAIN_10 ==> BlockOf(name) == Main
  {
  }

  lemma Main11()
    ensures forall name :: name in MAIN_11 ==> BlockOf(name) == Main
  {
  }

  lemma Battery1()
    ensures forall name :: name in BATTERY_1 ==> BlockOf(name) == Battery
  {
  }

  lemma Battery2()
    ensures forall name :: name in BATTERY_2 ==> BlockOf(name) == Battery
  {
  }

  lemma Battery3()
    ensures forall name :: name in BATTERY_3 ==> BlockOf(name) == Battery
  {
  }

  lemma Meter1()
    ensures forall name :: name in METER_1 ==> BlockOf(name) == Meter
  {
  }

  lemma Meter2()
    ensures forall name :: name in METER_2 ==> BlockOf(name) == Meter
  {
  }

  lemma Meter3()
    ensures forall name :: name in METER_3 ==> BlockOf(name) == Meter
  {
  }

  lemma Meter4()
    ensures forall name :: name in METER_4 ==> BlockOf(name) == Meter
  {
  }

  lemma Meter5()
    ensures forall name :: name in METER_5 ==> BlockOf(name) == Meter
  {
  }

  lemma Meter6()
    ensures forall name :: name in METER_6 ==> BlockOf(name) == Meter
  {
  }

  lemma Mppt1()
    ensures forall name :: name in MPPT_1 ==> BlockOf(name) == Mppt
  {
  }

  lemma Mppt2()
    ensures forall name :: name in MPPT_2 ==> BlockOf(name) == Mppt
  {
  }

  lemma Mppt3()
    ensures forall name :: name in MPPT_3 ==> BlockOf(name) == Mppt
  {
  }

  lemma NamesTell(b: Block, name: Name)
    requires name in NamesOf(b)
    ensures BlockOf(name) == b
  {
    match b
    case Main =>
      Main1();
      Main2();
      Main3();
      Main4();
      Main5();
      Main6();
      Main7();
      Main8();
      Main9();
      Main10();
      Main11();
    case Battery =>
      Battery1();
      Battery2();
      Battery3();
    case Meter =>
      Meter1();
      Meter2();
      Meter3();
      Meter4();
      Meter5();
      Meter6();
    case Mppt =>
      Mppt1();
      Mppt2();
      Mppt3();
  }

  /** The blocks have the program's sensors. */
  ghost predicate IsProgram(regs: Registries) {
    forall b: Block :: regs.Of(b).Keys == NamesOf(b)
  }

  /** So for the program's tables, whatever can be read of an inverter whose main block can, and however its sensors are
      computed, bulk and single reads agree. */
  lemma ProgramReadsAgree(regs: Registries, image: Image)
    requires IsProgram(regs) && Read(image, Main).Bytes?
    ensures Agrees(regs, image)
  {
    forall b, c, name | name in regs.Of(b) && name in regs.Of(c) ensures b == c {
      assert name in regs.Of(b).Keys && name in regs.Of(c).Keys;
      NamesTell(b, name);
      NamesTell(c, name);
    }
    assert Disjoint(regs);
    ReadsAgreeIff(regs);
  }
}
