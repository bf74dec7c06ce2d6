/** The model's native units expressed in the host's default units (nm, kJ/mol), from Common.h. */
module Units {

  /** 1 Angstrom (model) = 0.1 nm (host). */
  const GlobalLengthUnit: real := 0.1
  /** 1 eV (model) = 96.487 kJ/mol (host). */
  const GlobalEnergyUnit: real := 96.487
  /** Dipoles and polarizabilities are not converted by default. */
  const GlobalDipoleUnit: real := 1.0
  const GlobalPolarUnit: real := 1.0
}
