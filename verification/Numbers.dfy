/** Machine integers. */
module Numbers {
  const U64_MAX: nat := 0xFFFF_FFFF_FFFF_FFFF
}
