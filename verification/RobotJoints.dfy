/** Six joint values, as the driver and the robot's script exchange them. */
module RobotJoints {

  type Joints = j: seq<real> | |j| == 6 witness [0.0, 0.0, 0.0, 0.0, 0.0, 0.0]

  const AT_REST: Joints := [0.0, 0.0, 0.0, 0.0, 0.0, 0.0]
}
