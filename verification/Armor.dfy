/** The enumerations of tasks/auto_aim/armor.hpp. */
module Armor {
  datatype Color = Red | Blue | Extinguish | Purple
  datatype ArmorType = Big | Small
  datatype ArmorName = One | Two | Three | Four | Five | Sentry | Outpost | Base | NotArmor

  /** first = 1 .. fifth = 5; a smaller number is a better priority. */
  type Priority = n: int | 1 <= n <= 5 witness 1
}
