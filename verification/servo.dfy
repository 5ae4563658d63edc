/** The servo driver calls the robot code issues, recorded as data. The
    vendor driver behind them is not part of this model: each call is an
    opaque action on the servo at a 0-based position in the controller's
    servo list. */
module Servo {

  datatype Direction = CW | CCW

  datatype Call =
      /** `run_motor_absolute_motion_by_axis(speed, acc, position)` */
    | RunAbsolute(axis: int, speed: real, acc: real, position: real)
      /** `run_motor_relative_motion_by_axis(speed, acc, offset)` */
    | RunRelative(axis: int, speed: real, acc: real, offset: real)
      /** `run_motor_in_speed_mode(dir, rpm, acc)` */
    | RunSpeed(axis: int, dir: Direction, rpm: int, acc: real)
      /** `run_motor_in_speed_mode(dir, 0, MAX_ACCELERATION)` */
    | DecelerateToZero(axis: int, dir: Direction)
      /** `emergency_stop_motor()` */
    | EmergencyStopMotor(axis: int)
      /** `b_go_home()` */
    | GoHome(axis: int)
      /** `set_current_axis_to_zero()` */
    | SetAxisZero(axis: int)
      /** the controller's `wait_for_motors_to_stop()` */
    | WaitForMotorsToStop
}
