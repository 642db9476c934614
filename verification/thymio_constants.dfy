/** Names of the robot's variables, as used by the observers. */
module ThymioConstants {
  const PROXIMITY_FRONT_BACK := "prox.horizontal"
  const PROXIMITY_GROUND_AMBIENT := "prox.ground.ambiant"
  const PROXIMITY_GROUND_REFLECTED := "prox.ground.reflected"
  const PROXIMITY_GROUND_DELTA := "prox.ground.delta"
  const GROUND_SENSOR_LEFT := 0
  const GROUND_SENSOR_RIGHT := 1
  const BUTTON_CENTER := "button.center"
  const BUTTON_RIGHT := "button.right"
  const BUTTON_LEFT := "button.left"
  const BUTTON_FRONT := "button.forward"
  const BUTTON_BACK := "button.backward"
  const MOTOR_LEFT := "motor.left.target"
  const MOTOR_RIGHT := "motor.right.target"
  const LEDS_TOP := "leds.top"
}
