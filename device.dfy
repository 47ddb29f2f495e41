/** Bus-level vocabulary of the charger driver: bytes, status codes and the
    constants it takes from drivers/drv_charger.h. That header is not part of
    this model, so its constants are declared without values: every property
    below holds whatever values the board defines for them, and a property that
    needs two of them to differ says so in its requires clause. */
module Device {

  /** One byte on the I2C bus (`uint8_t`). */
  type Byte = bv8

  /** PX4's success status, returned by transfers, `I2C::init` and `init`. */
  const OK: int := 0

  /** Bus address of the balancer (voltage and UPS current monitor), UPS0_ADDRESS. */
  const Ups0Address: int
  /** Bus address of the ADC that measures the HSS current, HSS_ADC_ADDRESS. */
  const HssAdcAddress: int
  /** Bus address of the GPIO expander that reports the HSS toggle, HSS_GPIO_ADDRESS. */
  const HssGpioAddress: int

  /** Decoded voltage that marks an invalid balancer reading, VOLTAGE_ERR. */
  const VoltageErr: int
  /** Decoded UPS current that marks an invalid balancer reading, UPS_CURRENT_ERR. */
  const UpsCurrentErr: int

  /** GPIO data byte meaning "toggle on", HSS_ACTIVE. */
  const HssActive: Byte
  /** GPIO data byte meaning "toggle off", HSS_INACTIVE. */
  const HssInactive: Byte

  /** Register selectors written before a read or as the first byte of a write. */
  const BalancerVoltageReg: Byte  // I2C_BALANCER_VOLTAGE
  const BalancerCurrentReg: Byte  // I2C_BALANCER_CURRENT
  const GpioDataReg: Byte         // HSS_GPIODAT
  const AdcConfReg: Byte          // HSS_ADCCONF
  const GpioConfReg: Byte         // HSS_GPIOCONF

  /** The configuration byte `init` writes to the ADC and to the GPIO expander. */
  const ConfigByte: Byte := 0xF4

  /** The three device variants sit at three different bus addresses. */
  predicate DistinctAddresses() {
    Ups0Address != HssAdcAddress && Ups0Address != HssGpioAddress && HssAdcAddress != HssGpioAddress
  }
}
