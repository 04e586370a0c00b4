/** The compiled sizes of include/cp_config.h that more than one component uses. */
module Config {
  const K_DIM: nat := 4096
  const R_RANK: nat := 128
  const PP_HASH_H: nat := 8
  const PP_HASH_W: nat := 16
}
