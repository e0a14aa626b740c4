# A verified model of the drift-diffusion and phonon-transport solvers

The project models the numerical core of a simulator for electronic devices and proves what that
core promises, for every mesh, every state and every run. Two modules of the simulator are covered.

**Drift-diffusion.** Electric potential and quasi-Fermi potentials live on the nodes of a mesh. The
box-integration assembly adds, element by element, the charge and recombination in each node's box,
the displacement and carrier fluxes across the dual faces of the edges, and the boundary conditions.
Carrier fluxes come in two discretisations: mean conductivity, and an averaged two-sided
Scharfetter-Gummel form. The project states the residual and the Jacobian as sums of contributions
(`BoxMesh`, `BoxSystem`, `BoxJacobian`), proves the nested assembly loops against them (`Assembly`,
`JacobianAssembly`, `Scatter`, `Layout`, `ElementVector`), and proves the structure a discretisation
of this kind exists for: the Jacobian is the derivative of the residual (`JacobianTheorem`), steady
states obey a maximum principle and dissipate (`MaximumPrinciple`), currents obey Kirchhoff's law
(`CurrentContinuity`), displacement obeys Gauss's law and the carriers' fluxes Ohm's law
(`Electrostatics`, `CarrierTransport`), the rows of each variable add up to what is created
(`BoxTotals`), and no common shift of the potentials drives anything (`Gauge`). Around it
stand the terminal currents in their global and compact form (`TerminalCurrents`, `RamoShockley`,
`CompactCurrents`, `CompactAgreement`, `TerminalPower`), the boundary models (`InterfaceModel`, `BoundaryLaws`, `CarrierSelection`), the
carrier statistics and recombination at a point, the bracketed Newton search for the equilibrium
level, the step limiter, number conservation and the cache of the k.p density of states.

**Phonon transport.** The gray solver sweeps over discrete directions, solves an upwind system for
each, and averages. The project proves that the quadrature telescopes exactly (`SphereSums`), that
integrated directions are exact integrals (`SliceIntegrals`), that upwind rows bound their solution
(`GraySystem`) and balance flow against relaxation and heat (`GrayBalance`, `GrayHeat`), that every iterate stays in the range of the data
(`GrayRange`), which walls find the mirrored slices (`GrayMirrors`), and that the transfer to the
nodes is a conservative average (`CellToNode`).

Arithmetic is over exact reals. The exponential is any function with exp(a + b) = exp(a) exp(b) and
exp(x) >= 1 + x; sine and cosine satisfy their addition laws. Derivatives are limits in the
epsilon-delta sense, built up in `Calculus`. Objects the simulator updates in place are classes,
its loops are loops, proved against functions whose properties the theorems state. `Forms` holds the
lists of additions and the finite sums everything is expressed with.

## Reading order

`Calculus`, `Exponential`, `EdgeFlux`, `Forms`, `BoxMesh`, `BoxSystem`, then any theorem module.

## Where the code does not do what one would expect

- Surface recombination is added to the rows of imposed carriers as well, and those rows are never
  cleared. Schottky contacts without thermionic emission that carry a surface recombination model
  meet this: their voltage and derivative are wrong, and the derivative drifts from one evaluation to
  the next (`ImposedRowKept`, `ImposedRowLost`, `ImposedRowDrifts`). Ohmic contacts free their
  carriers as soon as there is such a model and never meet it (`InitOhmic`).
- The compact terminal currents count the generation once per carrier and omit the thermoelectric
  term. They equal the global ones exactly when the resulting defects cancel (`CompactDefect`), and
  for every boundary exactly when no node has a defect (`AgreeByNodes`); so they do at a solution
  with uniform temperature and charge-conserving recombination (`CompactIsGlobal`), but not in
  general (`GenerationCountedTwice`, `ThermalCurrentMissed`).
- The exponential flux switches to linear forms at a quasi-Fermi drop of 0.1 and a potential drop of
  1e-4, and exactly there it has no derivative unless the edge is idle, the drop does not change or,
  for the second switch, there is no quasi-Fermi drop (`FermiSlopeExists`, `PotentialSlopeExists`).
- The step limiter scales the potential of a node for each element again: where neighbouring
  materials hold different carriers, the limit can be passed after all and updates change direction
  (`StepsBounded`, `SecondPassIdle` and `DirectionKept` give the exact conditions, `BoundedInOrder`
  the one for a given order of the elements).
- The kept charge derivative of a mobile dopant ignores its saturation (`ChargeDerivativeExact`,
  `SaturatedDopant`).
- A nonzero angular offset shifts the polar angle too and breaks the total solid angle
  (`SlicesCoverSphere`); user-given directions never cover the sphere (`CustomSlicesNeverCover`).
- A specular wall that finds no mirrored slice returns zero energy (`WallKeepsRange`), as every wall
  does in dimension 1 (`WallsAbsorbInOneDimension`) and walls across the y axis do for odd numbers of
  azimuths (`OddWallsAbsorb`).
- A periodic boundary adds the difference of two average energies and can leave the range of all
  energies (`PeriodicKeepsRange`), in a run already at the second sweep (`RingLeavesRange`).
- The outer gray iteration updates its error only in verbose mode (`SolveGray`).
- Degeneracies are not cached and keep the values of the element calculated last
  (`DegeneraciesAgree`, `StaleDegeneracies`).
- With a thermal and no strain simulation the density of states is recomputed as well, and asks a
  strain simulation that does not exist for its sequence number
  (modules/common/KPBulkDOS.cpp:117-133); the model takes the number as given.
- A comment calls the search for the equilibrium level standard Newton; the code keeps a bracket and
  clamps steps, which is what is modelled.

## Model

Main results come first within each group: discretised equations, assembly loops, terminal currents,
boundary models, physics at a point, equilibrium level, step limiter and conserved numbers, gray
transport, quadrature, transfer to nodes, cache.

| member | source | states |
|---|---|---|
| JacobianTheorem.JacobianIsDerivative | modules/dd_generic/DriftDiffusion.cpp:6423-7092 | The assembled Jacobian is exact: for every mesh, state, direction v and row g (imposed rows included), the residual row along x + h*v is differentiable at h = 0 in the epsilon-delta sense, with derivative the sum over j of J(g, j) v(j). Holds for both flux discretisations and inside every linear branch, off the two switch points; what the physical models must report correctly is the hypothesis ModelsCorrect |
| SwitchJump.FermiSlopeExists | modules/dd_generic/DriftDiffusion.cpp:6626-6666 | When the Jacobian of the exponential flux can be exact: along any change (u, v) of the two scaled quasi-Fermi potentials the flux of an edge with non-negative conductivities is differentiable if and only if their drop is not exactly 0.1, or both change alike, or the edge is idle (no dual area, or no conductivity at either end) |
| SwitchJump.PotentialSlopeExists | modules/dd_generic/DriftDiffusion.cpp:6626-6666 | The same along any change of the two electric potentials: differentiable if and only if the scaled drop is not exactly 1e-4, or both change alike, or the quasi-Fermi potentials are equal, or the edge is idle |
| Crossing.NoCrossing | modules/dd_generic/DriftDiffusion.cpp:6643-6654 | What keeps the one-sided slopes at the switches apart: exp(a) (2 - a) = 2 + a holds at a = 0 only |
| MaximumPrinciple.DiscreteMaximumPrinciple | modules/dd_generic/DriftDiffusion.cpp:6614-6729 | On any mesh whose carrier unknowns are connected to contacts through conducting edges, without recombination and boundary exchange: if all rows of the carrier vanish, every nodal quasi-Fermi potential lies between the smallest and the largest contact value, for both discretisations |
| MaximumPrinciple.Dissipation | modules/dd_generic/DriftDiffusion.cpp:6614-6729 | Flux residual times quasi-Fermi potential, summed over all unknowns, is never negative for non-negative conductivities; where everything conducts it is zero if and only if the potential is constant on every connected component |
| MaximumPrinciple.TotalWork | modules/dd_generic/DriftDiffusion.cpp:6614-6729 | The same for any test function that does not decrease with the quasi-Fermi potential; zero work means zero work on every edge |
| MaximumPrinciple.PinnedWithin | modules/dd_generic/DriftDiffusion.cpp:6928-6949 | A vanishing imposed row pins its unknown between the imposed values, even where several contacts impose different ones on the same unknown |
| CurrentContinuity.EveryCutCarriesTheTerminalCurrent | modules/dd_generic/DriftDiffusion.cpp:6426-6729 | Discrete Kirchhoff law: with charge-conserving recombination and vanishing carrier rows away from the contacts, the current through any cut is the terminal current of the contacts it encloses, so all cuts separating the same contacts carry the same current |
| CurrentContinuity.TerminalCurrentsBalance | modules/dd_generic/DriftDiffusion.cpp:6426-6729 | The terminal currents of all contacts, however they are numbered, add up to zero |
| CurrentContinuity.DivergenceFree | modules/dd_generic/DriftDiffusion.cpp:6426-6729 | A nodal weight that vanishes on the contacts sees no net current: the edge current summed over the carriers is divergence-free |
| CurrentContinuity.FlowThroughEdges | modules/dd_generic/DriftDiffusion.cpp:6624-6729 | The current out of a nodal weight can be read off edge by edge: assembled rows and edge currents give the same flow |
| Gauge.RowsSumToZero | modules/dd_generic/DriftDiffusion.cpp:6668-6759 | Every row of the edge part of the Jacobian sums to zero over all columns, for both discretisations and every state |
| Gauge.ColumnsSumToZero | modules/dd_generic/DriftDiffusion.cpp:6668-6759 | In every column of the edge part, the rows of each single variable sum to zero |
| Gauge.EdgeFluxesUnmoved | modules/dd_generic/DriftDiffusion.cpp:6606-6729 | Shifting all potentials of an element by one amount leaves every flux contribution as it is, provided the conductivities do not notice the shift |
| EdgeFlux.RowGauge | modules/dd_generic/DriftDiffusion.cpp:6668-6704 | The four derivatives of one edge flux cancel exactly, also those with respect to the potential gradient |
| EdgeFlux.FluxIsClassical | modules/dd_generic/DriftDiffusion.cpp:6626-6666 | Under Boltzmann statistics the averaged two-sided flux is the textbook Scharfetter-Gummel flux c1 B(x) - c2 B(-x), for either sign of charge, outside the two small-argument branches |
| EdgeFlux.FluxSign | modules/dd_generic/DriftDiffusion.cpp:6624-6729 | The flux never runs against the quasi-Fermi drop, and on a conducting edge is zero only without a drop, across all branch switches |
| EdgeFlux.NoFaceNoFlux | modules/dd_generic/DriftDiffusion.cpp:6639-6666 | Nothing flows through a dual face without area |
| EdgeFlux.BernoulliMirror | modules/dd_generic/DriftDiffusion.cpp:7114-7128 | B(-x) = x + B(x) in every branch, which is how the assembly obtains B of the other end |
| EdgeFlux.BernoulliReflect | modules/dd_generic/DriftDiffusion.cpp:7114-7128 | B(-x) = exp(x) B(x) outside the linear branch |
| EdgeFlux.BernoulliPositive | modules/dd_generic/DriftDiffusion.cpp:7114-7128 | B is positive in both branches |
| EdgeFlux.DerivBernoulli | modules/dd_generic/DriftDiffusion.cpp:7114-7128 | The second component of the pair is the derivative of the first, along any differentiable curve, except exactly at the switch 1e-4 |
| EdgeFlux.DerivFlux | modules/dd_generic/DriftDiffusion.cpp:6624-6760 | The four numbers the assembly forms per edge are the flux derivatives along any simultaneous motion of all potentials and conductivities, in both discretisations |
| GradientMobility.DerivWithField | modules/dd_generic/DriftDiffusion.cpp:6668-6704 | The entries of the exponential flux, the terms for mobilities that depend on the potential gradient included, are its derivative also where the conductivities of both ends follow the field along the edge |
| GradientMobility.FieldIsUnscaled | modules/dd_generic/DriftDiffusion.cpp:6689-6692 | The gradient terms use the unscaled field: derivative with respect to the gradient, along the edge, times phi0 * drop / (x0 * length) |
| Electrostatics.GaussAcrossFace | modules/dd_generic/DriftDiffusion.cpp:6581-6602 | Gauss's law across one dual face: what an edge adds to the potential's row of its first node and takes from that of its second is mean permittivity (a third of the trace) * area * drop / length in units of l2, plus area times the mean normal polarization in units of P0 |
| Electrostatics.AffineIsExact | modules/dd_generic/DriftDiffusion.cpp:6558-6602 | In one material the displacement part of the row vanishes for every potential that is affine in the node positions, at every unknown whose box is closed: the discretisation is exact there |
| CarrierTransport.OhmAcrossFace | modules/dd_generic/DriftDiffusion.cpp:6718-6729 | Ohm's law: with the mean conductivity an edge moves conductivity * area * drop / length, per mu0 C0, from the row of one end to that of the other |
| CarrierTransport.ScharfetterGummel | modules/dd_generic/DriftDiffusion.cpp:6626-6666 | The same for the exponential flux under Boltzmann statistics, in areas, lengths, scales and the Bernoulli weights of the end conductivities |
| CarrierTransport.SchemesAgree | modules/dd_generic/DriftDiffusion.cpp:6626-6729 | Both discretisations give the same flux for equal conductivities, no potential drop and a small quasi-Fermi drop |
| CarrierTransport.TurnedFlux | modules/dd_generic/DriftDiffusion.cpp:6624-6729 | The flux does not depend on which end of the edge comes first |
| BoxTotals.RowsAddUp | modules/dd_generic/DriftDiffusion.cpp:6423-6989 | Conservation over the mesh: the rows of a variable, before any is imposed, add up to what recombines in the boxes and passes the boundaries, with the sign of the charge and the scales of volume and area; the rows of the potential to minus all charge. No flux between boxes is left |
| BoxTotals.ElementTotal | modules/dd_generic/DriftDiffusion.cpp:6423-6989 | The same for one element, with all scales |
| BoxTotals.ImposedIsDifference | modules/dd_generic/DriftDiffusion.cpp:6928-6949 | An imposed row with coefficient one is the scaled unknown minus the scaled value it has to take |
| BoxTotals.ModelsSeeVolts | modules/dd_generic/DriftDiffusion.cpp:6300-6420 | The physical models of a node are given the unknowns times their scale |
| BoxDerivative.MatchElement | modules/dd_generic/DriftDiffusion.cpp:6423-6989 | One element: residual contributions, however tested, move exactly as the element matrix says |
| JacobianTheorem.DerivForm | modules/dd_generic/DriftDiffusion.cpp:6423-7013 | The assembled weak form is differentiable for every test function, with the derivative the element matrices give |
| JacobianTheorem.MatchImposed | modules/dd_generic/DriftDiffusion.cpp:6897-6949 | Imposed rows are differentiable with the recorded derivatives, and which rows are imposed does not change along the motion |
| BoxSystem.WeakForm | modules/dd_generic/DriftDiffusion.cpp:6423-7007 | Summation by parts over an arbitrary mesh: global rows weighted with a test function equal the sum of the element forms |
| BoxBalance.FluxWeakForm | modules/dd_generic/DriftDiffusion.cpp:6606-6729 | The same for the flux part alone: weighted flux rows are the total flux work on the edges |
| Assembly.AssembleResidual | modules/dd_generic/DriftDiffusion.cpp:5956-7092 | The loops over elements, nodes, edges, sides and carriers, with the element vector, the global addition and the replacement of Dirichlet rows, compute the residual the theorems speak about, in every row |
| JacobianAssembly.AssembleJacobian | modules/dd_generic/DriftDiffusion.cpp:5956-7043 | The loops that fill element matrices, add them and replace imposed rows compute the Jacobian the theorems speak about, in every entry |
| Assembly.AssembleElement | modules/dd_generic/DriftDiffusion.cpp:6121-6989 | Element vector and Dirichlet values of one element: every position of the vector holds the sum of the contributions to its unknown |
| Assembly.AssembleNode | modules/dd_generic/DriftDiffusion.cpp:6426-6451 | Charge enters the Poisson row negatively, net recombination the carrier rows with the sign of the charge |
| Assembly.AssembleEdge | modules/dd_generic/DriftDiffusion.cpp:6591-6729 | Displacement and carrier fluxes are added at one end and taken at the other |
| Assembly.ExponentialFactors | modules/dd_generic/DriftDiffusion.cpp:6626-6654 | Bernoulli factors of both ends and the two exponential factors with their slopes, with both linear branches |
| Assembly.ExponentialFlux | modules/dd_generic/DriftDiffusion.cpp:6658-6666 | The average of the two one-sided fluxes |
| Assembly.MeanFlux | modules/dd_generic/DriftDiffusion.cpp:6718-6729 | The flux with the mean conductivity |
| Assembly.AssembleSide | modules/dd_generic/DriftDiffusion.cpp:6784-6989 | Sides with a model add their values unless the row is imposed, whose values are accumulated per global row; plain outer sides add the normal polarization (zero-field default) |
| Assembly.SetRows | modules/dd_generic/DriftDiffusion.cpp:7084-7092 | Exactly the rows met by an imposed value are replaced, by the sum of all values met for them |
| JacobianAssembly.AssembleNodeJacobian | modules/dd_generic/DriftDiffusion.cpp:6470-6555 | Charge columns, recombination rows and the diagonal Poisson entry, which collects minus the sum of the charge derivatives |
| JacobianAssembly.AssembleExponential | modules/dd_generic/DriftDiffusion.cpp:6668-6704 | All eight entries of the exponential flux, written in two passes |
| JacobianAssembly.AssembleMean | modules/dd_generic/DriftDiffusion.cpp:6731-6760 | All eight entries of the mean flux, written in two passes |
| JacobianAssembly.AssembleEdgeJacobian | modules/dd_generic/DriftDiffusion.cpp:6604-6762 | All entries of one edge |
| JacobianAssembly.AssemblePointJacobian | modules/dd_generic/DriftDiffusion.cpp:6859-6918 | Boundary rows go into the element matrix with their scale, imposed ones are recorded instead |
| JacobianAssembly.RecordRow | modules/dd_generic/DriftDiffusion.cpp:6897-6901 | Derivatives of an imposed row accumulate per global row and column |
| JacobianAssembly.SetMatrixRows | modules/dd_generic/DriftDiffusion.cpp:7018-7043 | Imposed rows are cleared and set; all other entries stay |
| Scatter.AddVector | modules/dd_generic/DriftDiffusion.cpp:7006 | Every global entry grows by the sum of the element entries that carry its number, also when numbers repeat |
| Scatter.AddMatrix | modules/dd_generic/DriftDiffusion.cpp:7012 | The same for pairs of numbers |
| Scatter.LandingComplete | modules/dd_generic/DriftDiffusion.cpp:7006 | What lands on a global row is the sum of the element contributions whose unknown has that number |
| Scatter.LandingComplete2 | modules/dd_generic/DriftDiffusion.cpp:7012 | The same for matrix entries |
| ElementVector.AddTo | modules/dd_generic/DriftDiffusion.cpp:6189-6226 | Writing through a sub-vector changes the one unknown it stands for |
| ElementVector.AddToMatrix | modules/dd_generic/DriftDiffusion.cpp:6203-6213 | Writing through a sub-matrix changes the one pair of unknowns it stands for |
| Layout.BlocksTile | modules/dd_generic/DriftDiffusion.cpp:4895-4964 | Every position of the element system belongs to exactly one unknown of one block, for any carriers with one or n unknowns and any conservation scalars |
| Layout.BlockFits | modules/dd_generic/DriftDiffusion.cpp:4895-4964 | No block reaches beyond the element system |
| Layout.NoOverlap | modules/dd_generic/DriftDiffusion.cpp:4895-4964 | Two unknowns share a position only if they are the same |
| Layout.NoGap | modules/dd_generic/DriftDiffusion.cpp:4895-4964 | Every position belongs to some block |
| Layout.JoinedAt | modules/dd_generic/DriftDiffusion.cpp:4829-4860 | Position k of block v is where the list of global numbers holds unknown k of variable v |
| Layout.GatherDofs | modules/dd_generic/DriftDiffusion.cpp:4829-4860 | The list of global numbers is built variable by variable, scalars last |
| Layout.Reposition | modules/dd_generic/DriftDiffusion.cpp:4895-4964 | The running counts locate every block at the total size of its predecessors |
| TerminalCurrents.GlobalCurrents | modules/dd_generic/DriftDiffusion.cpp:2833-3085 | The loop over cells, quadrature points, nodes, contacts and carriers returns for every contact minus the assembled total-current form tested with its function |
| TerminalCurrents.ComputeGradient | modules/dd_generic/DriftDiffusion.cpp:2984-2998 | Gradients at a quadrature point from nodal values |
| TerminalPower.DriftHeats | modules/dd_generic/DriftDiffusion.cpp:3056-3062 | Joule's law for one carrier: drift current times gradient of its quasi-Fermi potential is weight * e * |charge| * conductivity * scale * squared gradient, never negative, for either sign of charge |
| TerminalPower.PowerBalance | modules/dd_generic/DriftDiffusion.cpp:2970-3082 | With one quasi-Fermi potential for all carriers as the test function, minus the terminal current is the power of the device: heat of every carrier, thermoelectric power, and charge that recombines times the potential |
| TerminalPower.CurrentsDissipate | modules/dd_generic/DriftDiffusion.cpp:2970-3082 | Without temperature gradients and recombination that current runs down its potential, for any mix of carriers |
| RamoShockley.TestFunctionIndependence | modules/dd_generic/DriftDiffusion.cpp:3056-3080 | Where the total-current form vanishes at the free nodes, two test functions that agree on all other nodes give the same terminal current |
| RamoShockley.CurrentsBalance | modules/dd_generic/DriftDiffusion.cpp:3018-3080 | At uniform temperature with charge-conserving recombination, currents of test functions that sum to one at every node add up to zero, in any state |
| CompactCurrents.CompactCurrents | modules/dd_generic/DriftDiffusion.cpp:3090-3298 | The loop over boundary elements returns minus the sum of its weighted element terms for every contact |
| CompactCurrents.CompactDefect | modules/dd_generic/DriftDiffusion.cpp:3208-3293 | The exact difference between the compact current and the global one for the indicator of the boundary, in any state: both agree if and only if the defects of all cells, generation counted once per carrier and the omitted thermoelectric current, add up to zero |
| CompactAgreement.AgreeByNodes | modules/dd_generic/DriftDiffusion.cpp:3208-3293 | The compact currents equal the global ones for every boundary if and only if the defect vanishes at each node |
| CompactAgreement.DefectByNodes | modules/dd_generic/DriftDiffusion.cpp:3208-3293 | The defect of a boundary is the sum of the defects of its nodes |
| CompactCurrents.GenerationCountedTwice | modules/dd_generic/DriftDiffusion.cpp:3244-3264 | A concrete bar with two carriers of which one recombines, where the two evaluations differ |
| CompactCurrents.ThermalCurrentMissed | modules/dd_generic/DriftDiffusion.cpp:3208-3293 | A concrete device between two temperatures with one carrier at rest, where they differ as well |
| CompactCurrents.CompactIsGlobal | modules/dd_generic/DriftDiffusion.cpp:3208-3293 | At a discrete solution with uniform temperature and charge-conserving recombination both evaluations agree, for every test function that is one on the contact and zero on the other non-free nodes |
| InterfaceModel.Boundary.Compute | modules/dd_generic/DDInterfaceModel.cpp:399-484 | One evaluation of a boundary model: clearing, contact rows, isolation, trapped charge and surface recombination together leave the coefficients and all derivative rows stated in one predicate |
| InterfaceModel.Boundary.SetType | modules/dd_generic/DDInterfaceModel.cpp:116-141 | An unknown changes its type, with its coefficient and, if imposed, its derivative; the arrays are prepared on first use |
| InterfaceModel.Boundary.ClearRows | modules/dd_generic/DDInterfaceModel.cpp:402-410 | Only rows that are not imposed start from zero |
| InterfaceModel.Boundary.ContactRows | modules/dd_generic/ElectricalContact.cpp:83-113 | Imposed unknowns get the voltage, others recombine towards the equilibrium density with opposite derivatives for the two potentials |
| InterfaceModel.Boundary.IsolateRows | modules/dd_generic/DDInterfaceModel.cpp:415-424 | Isolated carriers exchange nothing, whatever they did before |
| InterfaceModel.Boundary.TrapRow | modules/dd_generic/DDInterfaceModel.cpp:438-460 | Trapped charge enters the potential row, halved on internal boundaries |
| InterfaceModel.Boundary.ModelRows | modules/dd_generic/DDInterfaceModel.cpp:462-484 | Surface recombination is added to every carrier row, also to imposed ones |
| InterfaceModel.Boundary.InitInterface | modules/dd_generic/DDInterfaceModel.cpp:277-281 | Which unknowns an interface leaves free |
| InterfaceModel.Boundary.InitContact | modules/dd_generic/ElectricalContact.cpp:44-80 | A contact frees exactly the carriers with a recombination velocity, all of them on request or with surface recombination; carriers without a velocity, and all carriers on request, start from velocity zero |
| InterfaceModel.Boundary.ReleaseCarrier | modules/dd_generic/ElectricalContact.cpp:62-74 | One carrier of a contact: freed with its velocity, freed with velocity zero on request, or left as it is |
| InterfaceModel.Boundary.SetVelocity | modules/dd_generic/ElectricalContact.h:199-211 | A velocity set later counts, and frees the carrier, only if it is positive and the carrier has none of its own |
| InterfaceModel.Boundary.SetVelocities | modules/dd_generic/models/SchottkyContact.cpp:129-133 | Velocities of thermionic emission for all listed carriers; fixed ones stay |
| InterfaceModel.Boundary.InitOhmic | modules/dd_generic/models/OhmicContact.cpp:41-48 | An ohmic contact imposes every unknown the later settings do not free; with surface recombination models no carrier stays imposed |
| InterfaceModel.Boundary.InitSchottky | modules/dd_generic/models/SchottkyContact.cpp:43-144 | A Schottky contact always imposes the potential, and the carriers exactly without thermionic emission, whatever was set before; emission velocities replace those not given by the user |
| BoundaryLaws.NeumannRowSum | modules/dd_generic/ElectricalContact.cpp:105-110 | A carrier row that is not imposed sums to zero exactly as far as surface recombination does: contact recombination itself is neutral |
| BoundaryLaws.PotentialRowSum | modules/dd_generic/DDInterfaceModel.cpp:438-460 | The potential row of a surface with traps sums to zero |
| BoundaryLaws.CarrierRowExact | modules/dd_generic/ElectricalContact.cpp:95-111 | The row of a carrier that is not imposed is the derivative of its boundary value in every direction, traps, isolation and surface recombination included |
| BoundaryLaws.ContactImposes | modules/dd_generic/ElectricalContact.cpp:83-93 | What an imposed row of a contact asks for: voltage for carriers, voltage on top of the Fermi level of the contact for the potential |
| BoundaryLaws.ContactExchanges | modules/dd_generic/ElectricalContact.cpp:95-107 | A free carrier leaves a contact with its recombination velocity times what exceeds the equilibrium density; in equilibrium nothing passes |
| BoundaryLaws.SidesAddUp | modules/dd_generic/DDInterfaceModel.cpp:438-484 | Rates and trapped charge count once, from the one side of an outer boundary or from both sides of an internal one together |
| BoundaryLaws.IsolatedIsQuiet | modules/dd_generic/DDInterfaceModel.cpp:415-424 | An isolated carrier without surface models exchanges nothing and is not imposed, whatever the contact says |
| BoundaryLaws.ImposedRowKept | modules/dd_generic/DDInterfaceModel.cpp:462-484 | An imposed carrier still says "potential equals voltage" after an evaluation if and only if no surface recombination slope was added; the value is off by the surface rate |
| BoundaryLaws.ImposedRowAlwaysKept | modules/dd_generic/DDInterfaceModel.cpp:462-484 | It keeps its row for all point data if and only if the boundary has no surface recombination model |
| BoundaryLaws.ImposedRowLost | modules/dd_generic/DDInterfaceModel.cpp:462-484 | A Schottky contact without thermionic emission at 0.5 V with one surface model: one evaluation from the state its initialisation leaves gives 2.5 V and a wrong derivative row |
| BoundaryLaws.LoseVoltage | modules/dd_generic/DDInterfaceModel.cpp:277-484 | The same on the object itself, from construction through initialisation to the first evaluation |
| BoundaryLaws.ImposedRowDrifts | modules/dd_generic/DDInterfaceModel.cpp:402-484 | Over any run of evaluations the row of an imposed carrier collects the slopes of all of them, because it is never cleared |
| BoundaryLaws.NeumannRowForgets | modules/dd_generic/DDInterfaceModel.cpp:402-484 | Rows that are not imposed depend on the last point only, not on the history |
| CarrierSelection.Select | modules/dd_generic/DDInterfaceModel.cpp:350-384 | A two-sided interface carries all carriers of either side, each from the side where the particle has the lower energy; ties keep electrons on the first side and put holes on the second |
| Recombination.NetRates | modules/dd_generic/DriftDiffusionProperties.cpp:641-674 | Rates and derivatives of all models are summed for the listed carriers, whatever was stored before |
| Recombination.NetRateConservesCharge | modules/dd_generic/DriftDiffusionProperties.cpp:653-673 | If no model creates charge, the sum does not either |
| Recombination.NetSlopesAreNeutral | modules/dd_generic/DriftDiffusionProperties.cpp:653-673 | If the rows of every model sum to zero over its own carriers and the potential, so do the rows of the sum |
| Recombination.NetRateIsSum | modules/dd_generic/DriftDiffusionProperties.cpp:641-674 | The net rate of a carrier is the sum of the rates of exactly the models that list it |
| Recombination.NetSlopeIsSum | modules/dd_generic/DriftDiffusionProperties.cpp:641-674 | The same for every derivative; the last column belongs to the potential |
| CarrierStatistics.CarrierProperties.GetDensityAndDerivative | modules/dd_generic/CarrierProperties.cpp:285-383 | Density, derivative and conductivity of a carrier with the predictor for quantum densities; the quantum flag is on again afterwards |
| CarrierStatistics.CarrierProperties.CountStates | modules/dd_generic/CarrierProperties.cpp:300-333 | The predictor scales the classical density by the old ratio of quantum to classical and restores the flag |
| CarrierStatistics.DensityDerivative | modules/dd_generic/CarrierProperties.cpp:285-383 | For a density of states that reports its own slopes, the reported derivative is the density's along any motion of both potentials, for both signs of charge, predictor included |
| CarrierStatistics.ConductivityDerivative | modules/dd_generic/CarrierProperties.cpp:348-373 | The same for the conductivity in the standard and in the generalised model |
| CarrierStatistics.UnitChargesOnly | modules/dd_generic/CarrierProperties.cpp:295-297 | Both potentials act with equal and opposite weight, as the Jacobian assumes, if and only if the charge is +1 or -1 |
| CarrierStatistics.DensityFollows | modules/dd_generic/CarrierProperties.cpp:295-333 | Densities of positive carriers rise with their quasi-Fermi potential and fall with the electric one, those of negative carriers do the opposite |
| CarrierStatistics.PredictorStarts | modules/dd_generic/CarrierProperties.cpp:300-333 | At the potentials of the last solution the predictor gives the quantum density |
| CarrierStatistics.ConductivityIs | modules/dd_generic/CarrierProperties.cpp:348-373 | The conductivity is mobility times density on top of the background; the generalised model gives the same exactly where kT times the derivative of the density is the density |
| ModelBridge.UnitChargeMeetsJacobian | modules/dd_generic/DriftDiffusion.cpp:6659-6704 | A carrier of unit charge with these statistics meets the hypothesis on conductivities of the Jacobian theorem |
| ModelBridge.UnitChargesMeetCharge | modules/dd_generic/DriftDiffusion.cpp:6437-6502 | Carriers of unit charge with fixed charges meet the hypothesis on the charge density |
| ModelBridge.NetRatesMeetKirchhoff | modules/dd_generic/DriftDiffusion.cpp:6438-6451 | Net rates of charge-conserving recombination models meet the hypothesis of the Kirchhoff law |
| BoundaryBridge.FreeRowMeets | modules/dd_generic/ElectricalContact.cpp:95-111 | The row the boundary model computes for a free carrier meets the hypothesis of the Jacobian theorem on boundary rows |
| BoundaryBridge.ImposedRowMeets | modules/dd_generic/ElectricalContact.cpp:83-93 | So does the row of an imposed carrier without surface models, and of an imposed potential |
| BoundaryBridge.PotentialRowMeets | modules/dd_generic/DDInterfaceModel.cpp:438-460 | So does the row of a free potential with trapped surface charge |
| ChargeBalance.Properties.CalculateDensities | modules/dd_generic/DriftDiffusionProperties.cpp:434-455 | All densities with the kept charge derivatives |
| ChargeBalance.Properties.ChargeDensity | modules/dd_generic/DriftDiffusionProperties.cpp:406-429 | Net charge with saturating mobile dopants, ionised dopants and traps |
| ChargeBalance.ChargeCarried | modules/dd_generic/DriftDiffusionProperties.cpp:406-429 | A mobile dopant carries minus its charge times what is missing to its maximum, and nothing once it is occupied; other carriers carry their charge |
| ChargeBalance.PairIsNeutral | modules/dd_generic/DriftDiffusionProperties.cpp:406-429 | Equally many carriers of opposite charge are neutral |
| ChargeBalance.ChargeDerivativeExact | modules/dd_generic/DriftDiffusionProperties.cpp:411-453 | The kept charge derivative is the true one, along any motion of the density, if and only if the species still counts (no mobile dopant at or beyond its maximum) or the product of charge and slope is zero |
| ChargeBalance.SaturatedDopant | modules/dd_generic/DriftDiffusionProperties.cpp:411-453 | A concrete mobile dopant beyond its maximum whose kept derivative is wrong |
| EquilibriumNewton.EquilibriumLevel | modules/dd_generic/DDBulkModel.cpp:352-447 | The search returns the iterate after its last step, stops at the first step that is small with a small residual, and reports failure only after 10000 steps; after a success there is a level within 1e-4 where the charge density is below 1e10 |
| EquilibriumNewton.Advance | modules/dd_generic/DDBulkModel.cpp:401-446 | One pass: the bracket moves, then the Newton step or its clamped replacement is taken |
| EquilibriumNewton.IteratesStayInside | modules/dd_generic/DDBulkModel.cpp:391-440 | Every iterate stays in the first bracket, and brackets are nested |
| EquilibriumNewton.LevelStaysInside | modules/dd_generic/DDBulkModel.cpp:352-440 | From the start of the search, with Ec at or above Ev, every iterate lies in [Ev - 0.5, Ec + 0.5] |
| EquilibriumNewton.StartCentered | modules/dd_generic/DDBulkModel.cpp:358-372 | The search starts half way between the band edges |
| EquilibriumNewton.StepStaysInside | modules/dd_generic/DDBulkModel.cpp:412-440 | One step from inside a bracket stays inside the narrowed bracket |
| EquilibriumNewton.StepSign | modules/dd_generic/DDBulkModel.cpp:423 | The Newton step points towards the zero |
| EquilibriumNewton.DoneIsClose | modules/dd_generic/DDBulkModel.cpp:436-446 | The search is over exactly after a step of less than 1e-4 from a level with a charge density of less than 1e10 |
| EquilibriumNewton.StepMoves | modules/dd_generic/DDBulkModel.cpp:412-434 | A level with a charge density of at most 1e-64 is kept, any other inside the bracket moves towards the zero |
| EquilibriumNewton.AffineIsSolved | modules/dd_generic/DDBulkModel.cpp:423 | For an affine charge density a free step hits the zero |
| EquilibriumNewton.StopFromBelow | modules/dd_generic/DDBulkModel.cpp:412-446 | For convex charge functions, a search that ends with a step from below the zero leaves a charge density between 0 and 1e10 at the level it returns |
| EquilibriumSlope.SlopeIsDerivative | modules/dd_generic/DDBulkModel.cpp:404-410 | The slope the search divides by is the derivative of the charge density, if the carriers report their own derivatives correctly |
| EquilibriumNewton.RootKept | modules/dd_generic/DDBulkModel.cpp:412-440 | A zero inside the bracket is never lost |
| EquilibriumNewton.ClampHalves | modules/dd_generic/DDBulkModel.cpp:425-430 | A clamped step halves the distance to the bound it would have passed |
| EquilibriumNewton.ClampedStopIsAccurate | modules/dd_generic/DDBulkModel.cpp:425-446 | If the search ends with a clamped step, the zero is closer than the tolerance |
| EquilibriumNewton.FreeStepLandsBelow | modules/dd_generic/DDBulkModel.cpp:423-434 | For convex charge functions a free step from anywhere lands at or below the zero |
| EquilibriumNewton.StepFromBelow | modules/dd_generic/DDBulkModel.cpp:412-440 | From below the zero every step is free and goes up, never past the zero |
| EquilibriumNewton.IncreasingAfterFreeStep | modules/dd_generic/DDBulkModel.cpp:412-440 | For convex charge functions all iterates after the first free step increase and never pass the zero |
| EquilibriumNewton.ClampedOnlyFromAbove | modules/dd_generic/DDBulkModel.cpp:425-430 | For convex charge functions a clamped step can only start above the zero and hit the lower bound |
| StepLimiter.LimitStep | modules/dd_generic/DriftDiffusion.cpp:4581-4652 | One pass over any list of elements, each with its own carriers, is the fold of its visits: every visit scales the potential and the carriers of the element at one node by one factor |
| StepLimiter.LimitVisit | modules/dd_generic/DriftDiffusion.cpp:4614-4650 | One visit: the largest chemical step of the carriers of the element decides, and all their unknowns and the potential are scaled where it passes the limit |
| StepLimiter.StepsBounded | modules/dd_generic/DriftDiffusion.cpp:4581-4652 | After every pass over elements of a mesh, in any number and order, no chemical potential moves by more than 10, if and only if of any two materials that meet at a node one holds all charged carriers of the other |
| StepLimiter.LimitPassedAgain | modules/dd_generic/DriftDiffusion.cpp:4581-4652 | The failing updates: a charged carrier of one element and another carrier of its neighbour, a pass that leaves a step of 20 |
| StepLimiter.DirectionKept | modules/dd_generic/DriftDiffusion.cpp:4641-4650 | Every pass scales the potential and all carriers of each node by one factor in (0, 1] if and only if all materials at a node that hold any carriers hold the same ones |
| StepLimiter.DirectionLost | modules/dd_generic/DriftDiffusion.cpp:4581-4652 | The failing updates: an element scales its carrier and does not see that of its neighbour |
| StepLimiter.PassShrinks | modules/dd_generic/DriftDiffusion.cpp:4641-4650 | Whatever the materials, no pass enlarges or turns around the update of any unknown |
| StepLimiter.SecondPassIdle | modules/dd_generic/DriftDiffusion.cpp:4581-4652 | A second pass over the same elements changes nothing, for all lists and updates, if and only if the same condition on the materials holds as for the limit |
| StepOrder.BoundedInOrder | modules/dd_generic/DriftDiffusion.cpp:4581-4652 | Along the one order in which a list is visited, the limit holds throughout the pass, after every element and for every update, if and only if every element, at each of its nodes, holds all charged carriers met there before or brings no new carrier |
| StepOrder.LimitLost | modules/dd_generic/DriftDiffusion.cpp:4581-4652 | The failing updates along an order: an element brings a carrier and lacks a charged one met before, and leaves that one a step of 20 |
| StepOrder.SecondPassInOrder | modules/dd_generic/DriftDiffusion.cpp:4581-4652 | After a pass along an order with this property a second pass along it changes nothing |
| StepLimiter.PassIdle | modules/dd_generic/DriftDiffusion.cpp:4614-4651 | A pass leaves an update alone if and only if the update is within the limit at every visit |
| NumberConservation.Conservation.Calculate | modules/dd_generic/DriftDiffusion.cpp:498-588 | Number from density or density from number, on the volume of the elements that hold a listed carrier |
| NumberConservation.Volume | modules/dd_generic/DriftDiffusion.cpp:511-547 | The volume of exactly those elements |
| NumberConservation.NumberNeverDrifts | modules/dd_generic/DriftDiffusion.cpp:502-586 | Over any number of solves on a fixed mesh the number is the one given, or the one the given density stands for, and always volume times density |
| NumberConservation.NumberFollowsVolume | modules/dd_generic/DriftDiffusion.cpp:502-586 | Once a positive density is known, a changed mesh keeps the number if and only if the volume is the same |
| NumberConservation.ScalarRow | modules/dd_generic/DriftDiffusion.cpp:6453-6465 | The row of the conserved number: scaled number minus the box sums, only over carriers that exist in the element |
| NumberConservation.RowVanishes | modules/dd_generic/DriftDiffusion.cpp:7061-7081 | The row vanishes if and only if the mesh holds the conserved number of carriers |
| NumberConservation.UniformNumber | modules/dd_generic/DriftDiffusion.cpp:6453-6465 | A uniform density of one carrier counts, in the row, the volume its number is computed with |
| NumberConservation.UniformConserves | modules/dd_generic/DriftDiffusion.cpp:502-586 | So a uniform density satisfies the conserved row exactly if it is the density of the law: number and row use the same volume and the same scale |
| NumberConservation.PowerOfDimension | modules/dd_generic/DriftDiffusion.cpp:549-570 | Each dimension multiplies the scale of a volume by the length once more |
| GrayRange.IteratesInRange | modules/boltzmann/Boltzmann.cpp:850-912 | Range invariant of the gray solver: with closed cells of any materials, no heat source, consistent directions and harmless boundaries, every iterate and every stored boundary energy stays in the range of the initial field and the reservoirs |
| GrayRange.SweepInRange | modules/boltzmann/Boltzmann.cpp:859-908 | All directional solutions of a sweep stay in that range, although later slices already see the boundary energies of earlier ones |
| GrayRange.EnergyInRange | modules/boltzmann/Boltzmann.cpp:876-881 | The new energy is a convex combination of the directional solutions when the slices cover the sphere |
| GrayRange.UniformIsStationary | modules/boltzmann/Boltzmann.cpp:850-912 | A uniform field with reservoirs at the same energy is a fixed point and carries no heat along any axis the directions balance |
| GrayRange.WallKeepsRange | modules/boltzmann/Boltzmann.cpp:2923-2965 | A specular wall returns energies in the range for all stored data if and only if it finds a mirrored slice; without one it returns zero |
| GrayMirrors.WallsReflect | modules/boltzmann/Boltzmann.cpp:2923-2965 | With the geometric test of the code and computed slices, walls across the x axis find the mirrored slice of every incoming one for any slice counts, across the y axis for an even number of azimuths, across the z axis in dimension 3 |
| GrayMirrors.MirrorExists | modules/boltzmann/Boltzmann.cpp:2929-2957 | The mirrored slice passes the test of the code, in dimensions 2 and 3 |
| GrayMirrors.ImageEnters | modules/boltzmann/Boltzmann.cpp:2929-2957 | The image the test compares with in dimension 3 keeps the part of a direction along the wall and always points inwards |
| GrayOddWalls.OddWallsAbsorb | modules/boltzmann/Boltzmann.cpp:2923-2965 | At walls across the y axis with an odd number of azimuths no slice passes the test and the wall returns zero, in dimensions 2 and 3, as long as the slices are coarser than the tolerance (a condition on the sines of the angular steps) |
| GrayOddWalls.NoMirror | modules/boltzmann/Boltzmann.cpp:2929-2957 | There no slice is taken for the mirror image of another |
| GrayMirrors.WallsAbsorbInOneDimension | modules/boltzmann/Boltzmann.cpp:2923-2965 | In dimension 1 no slice ever passes the test, so every wall returns zero |
| GrayPeriodic.PeriodicKeepsRange | modules/boltzmann/Boltzmann.cpp:2799-2833 | For every state whose energies are the averages of the stored directional energies, as in every run, energies at a periodic boundary stay in the range if and only if the boundary refers to its own cell or finds none, or the range is a single energy, or the slice has the whole solid angle |
| GrayPeriodic.RunsAreAveraged | modules/boltzmann/Boltzmann.cpp:784-912 | In every run from equal directional energies all states are of this kind |
| GrayPeriodic.PeriodicSeesState | modules/boltzmann/Boltzmann.cpp:853-908 | What a periodic boundary sends into a slice is decided by the state before the sweep, although the sweep overwrites stored energies |
| GrayPeriodic.RingLeavesRange | modules/boltzmann/Boltzmann.cpp:772-912 | A run that leaves the range: a bar of three cells with identified ends, energies 1, 1 and 0, two opposite directions, any solver that solves the systems; the second sweep sends 1.125 through the ends |
| GrayPeriodic.LeaveRange | modules/boltzmann/Boltzmann.cpp:772-912 | The same on the object, from construction through two sweeps, with substitution as the solver |
| GrayRange.BoundaryInRange | modules/boltzmann/Boltzmann.cpp:2781-2965 | Reservoirs, walls, diffusive and harmless periodic boundaries return values in the range of the stored energies |
| GrayRange.DiffusiveParts | modules/boltzmann/Boltzmann.cpp:2834-2909 | A diffusive boundary without specular part returns what the slices that leave through it carry, whatever the others do; with full specular part the mirrored slice alone |
| GraySystem.SolutionInRange | modules/boltzmann/Boltzmann.cpp:2660-2701 | Every directional solution stays between the extremes of the old energy with its heat supply and the values given at inflow boundaries, for any mesh of closed cells, each with its own velocity and relaxation time |
| GraySystem.UpperBound | modules/boltzmann/Boltzmann.cpp:2660-2701 | No solution exceeds the source and the given values |
| GraySystem.PeakBounded | modules/boltzmann/Boltzmann.cpp:2660-2678 | At the cell with the highest energy the balance allows no more than the source there |
| GraySystem.RowSumIsVolume | modules/boltzmann/Boltzmann.cpp:2660-2678 | The entries of a balance row of a closed cell sum to its volume |
| GrayBalance.KineticBalance | modules/boltzmann/Boltzmann.cpp:2644-2701 | Kinetic balance of a cell no boundary side flows into: velocity * (integrated direction . normal) / solid angle * area * upwind energy, summed over its sides, is volume * (e - x) / relaxation time + volume * heat / capacity |
| GrayBalance.GroupBalance | modules/boltzmann/Boltzmann.cpp:2644-2701 | The same for any group of such cells: what leaves the group is what relaxation and heat sources supply in it; the flow between its cells cancels |
| GrayHeat.HeatBalance | modules/boltzmann/Boltzmann.cpp:850-912 | At a stationary state the heat all directions carry out of an inner cell is what its heat source delivers into the full solid angle |
| GraySystem.AssembleRow | modules/boltzmann/Boltzmann.cpp:2644-2701 | Upwind row of one cell with its own velocity, relaxation time, heat capacity and heat source; an inflow boundary side replaces it by the boundary value, the last such side decides |
| GraySolver.GrayTransport.SolveGray | modules/boltzmann/Boltzmann.cpp:772-948 | The outer iteration stops at the first iterate whose monitored change, of the energy norm or of the thermal conductivity, is small, or when the iterations are used up, and returns that iterate with the heat flux of its sweep; without verbose output the error is never updated and all iterations run |
| GraySolver.GrayTransport.Sweep | modules/boltzmann/Boltzmann.cpp:853-912 | One sweep over all slices with energy average, heat flux and boundary update in this order |
| GraySolver.GrayTransport.AddSlice | modules/boltzmann/Boltzmann.cpp:884-891 | The heat flux collects the solution of each slice with its integrated direction |
| GrayHeat.FluxOfSlice | modules/boltzmann/Boltzmann.cpp:884-891 | More energy in one direction adds the factor times that integrated direction to the heat flux, in that cell only |
| GrayHeat.OppositePair | modules/boltzmann/Boltzmann.cpp:884-891 | Two opposite directions carry the difference of their energies |
| GrayHeat.SweptSoFar | modules/boltzmann/Boltzmann.cpp:859-908 | In a sweep every slice is solved with the new energies of its predecessors; the slices to come hold what the sweep found |
| GraySolver.AssembleSystem | modules/boltzmann/Boltzmann.cpp:2603-2755 | The rows of all cells for one direction, each with its own material |
| GraySolver.BoundaryValue | modules/boltzmann/Boltzmann.cpp:2775-2965 | Energy a boundary sends into a slice: reservoir value, periodic partner shifted by the energy difference, mirrored slice, or a mixture with the average over outgoing slices |
| SphereSums.SlicesCoverSphere | modules/boltzmann/Boltzmann.cpp:3249-3334 | The solid angles sum to 4 pi for every number of slices in dimensions 1, 2 and 3 without angular offset; with offset d if and only if cos d = 1 (dimension 3) or cos d + sin d = 1 |
| SphereSums.TotalSolidAngle | modules/boltzmann/Boltzmann.cpp:3249-3334 | The exact sum of the solid angles for any offset |
| SphereSums.HorizontalCancels | modules/boltzmann/Boltzmann.cpp:3323-3324 | The integrated directions sum to zero in x and y, for every dimension, slice count and offset |
| SphereSums.VerticalCancels | modules/boltzmann/Boltzmann.cpp:3325 | In dimension 3 they sum to zero in z as well |
| SphereSums.SliceOpens | modules/boltzmann/Boltzmann.cpp:3317 | Without offset every slice has positive solid angle |
| SliceIntegrals.SliceIsIntegral | modules/boltzmann/Boltzmann.cpp:3317-3325 | Solid angle and integrated direction of every slice are closed expressions in its edges |
| SliceIntegrals.IntegralGrows | modules/boltzmann/Boltzmann.cpp:3317-3325 | The integrated direction vanishes on a slice without extent and, as a function of its upper polar edge, grows by the sine of the polar angle times the integral of the unit vector along the circle of latitude |
| SliceIntegrals.RingGrows | modules/boltzmann/Boltzmann.cpp:3317-3325 | The integral along a circle of latitude grows, in its upper azimuth, by the unit vector: so the integrated direction is the exact integral of the unit vector over the slice |
| SliceIntegrals.AreaGrows | modules/boltzmann/Boltzmann.cpp:3317 | The same for the solid angle |
| SliceIntegrals.SlicesAdjoin | modules/boltzmann/Boltzmann.cpp:3260-3315 | Without offset the slices fill the polar angles from 0 to pi, or to the equator, and a full turn of azimuths, each beginning where the one before ends |
| SliceIntegrals.MiddleIsUnit | modules/boltzmann/Boltzmann.cpp:3319-3321 | The middle direction is a unit vector |
| AngularQuadrature.AngularIntegrator.ComputeDirections | modules/boltzmann/Boltzmann.cpp:3249-3334 | The nested loops fill solid angles, middle and integrated directions of all slices in their numbering |
| AngularQuadrature.AngularIntegrator.SetSlice | modules/boltzmann/Boltzmann.cpp:3317-3330 | One slice is entered, all others stay |
| AngularQuadrature.MidpointProducts | modules/boltzmann/Boltzmann.cpp:3317-3325 | The products of a midpoint and a half step in the code are differences of edge values, which is why the sums telescope |
| GrayQuadrature.ComputedSlicesFit | modules/boltzmann/Boltzmann.cpp:3249-3334 | Computed slices without offset cover the sphere, balance, have positive solid angle, and see every upright side (across an axis, or vertical) from the same face as their integrated direction |
| GrayQuadrature.ComputedSlicesKeepRange | modules/boltzmann/Boltzmann.cpp:772-912 | The range invariant for computed slices on meshes with such sides, without any hypothesis on the directions |
| GrayQuadrature.CustomSlicesNeverCover | modules/boltzmann/Boltzmann.cpp:3201-3246 | User-given directions, each with solid angle one, never cover the sphere the energy is divided by |
| CellToNode.CountConnections | modules/boltzmann/Boltzmann.cpp:121-136 | Counts how many cells meet at each node |
| CellToNode.CellToNodal | modules/boltzmann/Boltzmann.cpp:694-715 | Every cell adds its value divided by the count of each of its nodes |
| CellToNode.NodalTotal | modules/boltzmann/Boltzmann.cpp:694-715 | A nodal value times the count of its cells is the sum of the values of these cells |
| CellToNode.NodalInRange | modules/boltzmann/Boltzmann.cpp:694-715 | Nodal values lie between the extremes of the cells that meet there |
| CellToNode.ConstantsReproduced | modules/boltzmann/Boltzmann.cpp:694-715 | Constants are reproduced: the weights at a node sum to one |
| CellToNode.TotalConserved | modules/boltzmann/Boltzmann.cpp:121-136 | The nodal total weighted with the connections is the cell total weighted with the node counts |
| KPCache.CacheIsTransparent | modules/common/KPBulkDOS.cpp:125-178 | After any interleaving of strain solves and preparations, preparing an element yields the band edges, masses, reference energies and effective density of states of a fresh calculation |
| KPCache.RunFaithful | modules/common/KPBulkDOS.cpp:125-178 | The cache invariant behind it: every entry is the fresh result of its strain solve and none comes from the future |
| KPCache.DegeneraciesAgree | modules/common/KPBulkDOS.cpp:125-178 | Preparing an element after any run from the start agrees with a fresh calculation in all fields, degeneracies included, if and only if at each strain solve all elements have the same degeneracies |
| KPCache.StaleDegeneracies | modules/common/KPBulkDOS.cpp:125-178 | A concrete run, preparing elements 0, 1 and 0 again, that leaves the degeneracies of element 1 |
| KPCache.KPBulkDOS.DoReinit | modules/common/KPBulkDOS.cpp:125-178 | Nothing unless quantities are to be recomputed; then cached data if recent enough, otherwise a calculation that is then stored |
| KPCache.KPBulkDOS.SolveKP | modules/common/KPBulkDOS.cpp:206-288 | A calculation overwrites all fields |
| KPCache.BandsReported | modules/common/KPBulkDOS.cpp:206-288 | Every band reports its own energy, mass and degeneracy; the effective density of states is that of the first band |
| KPCache.FirstBandCounts | modules/common/KPBulkDOS.cpp:283-285 | Strains that give the first band the same degeneracy and mass give the same effective density of states |
| KPCache.Cache.GetData | modules/common/KPBulkDOS.h:102-113 | An entry is used if and only if it is at least as recent as the strain |
| KPCache.Cache.SetData | modules/common/KPBulkDOS.h:115-118 | Storing replaces the entry of the element |

## Left out

- AssembleResidual: models the fully coupled assembly; the masks that decouple the Poisson and the carrier equations are not part of the model. Unknowns for conserved numbers appear in the block layout and in their own residual row (`ScalarRow`), not in the assembled system.
- AssembleJacobian: fully coupled, and without the rows and columns of conserved numbers, as `AssembleResidual`.
- AssembleElement: fully coupled, and without the rows of conserved numbers, as `AssembleResidual`.
- JacobianIsDerivative: takes the derivatives the physical models report as correct (`ModelsCorrect`), with unit charges and mobilities that do not depend on potential gradients (for one edge, `DerivWithField` covers them), and keeps off the two switch points of the fluxes; `FermiSlopeExists`, `PotentialSlopeExists`, `UnitChargesOnly` and `ChargeDerivativeExact` say exactly when these are needed.
- FluxIsClassical: inside the linear branches the flux differs from the classical one by the linearisation error, which is not bounded here.
- Neutral or multiply charged carriers in the Jacobian of the box integration, and the columns of the conserved numbers in it.
- Exclusion of unknowns and hanging-node constraints before the element system is added; the matrix is stored densely instead of sparsely.
- The finite-element variant of the assembly, except for the block layout and the Dirichlet rows it shares.
- Voronoi cells, shape functions and quadrature rules: areas, lengths, volumes, gradients and weights are inputs with stated hypotheses.
- Mobility, recombination, trap, dopant and density-of-states formulas: their values and slopes are functions of the local potentials.
- The list of boundary elements for the compact currents is assumed to contain every element with a node on the boundary (`Complete`).
- GlobalCurrents: leaves out the direct tunnelling term added to single contacts.
- ChargeDerivativeExact: several donors or acceptors in one material, whose ionised densities overwrite each other, are taken as given fixed charges.
- Contact resistance, and the Schottky barrier height and lowering formulas; only the types a contact gives its unknowns and its rows are modelled.
- GetDensityAndDerivative: derivatives with respect to the potential gradients are not modelled; the old solution of the predictor is an input.
- DensityDerivative: the predictor divides by the old classical density, which is assumed not to vanish (`Predictable`).
- LimitStep: carriers with a constant potential, which have one unknown per element; the code reads past their list of unknowns, so no result is defined there.
- Mesh volumes with vanishing total, where the conserved density is a division by zero.
- IteratesInRange: no heat source, which the assembled rows contain; the bounds with sources are `SolutionInRange` and `UpperBound`, for one direction. A periodic boundary counts as harmless where `PeriodicKeepsRange` says so, except for the case of a single slice. The penalty rows at inflow boundaries (1e20) are modelled as exactly given values.
- BoundaryValue: the boundary to the Fourier domain reads an energy outside the gray cells and is not modelled; which cell lies at the other end of a periodic boundary is an input.
- SolveGray: the norm, the thermal conductivity of a state and the relative change are parameters.
- WallsReflect: walls across the axes only; which slices pass the test at oblique walls, and at walls across the y axis for odd numbers of azimuths finer than the tolerance of 1e-5, is not characterised.
- The linear solver is a function assumed to solve the systems it is given (`SolvesSystems`).
- The angular integral for phonons with frequency dependence, the unfinished full Boltzmann assembly, view factors and energy checks.
- CellToNodal: transfer over the whole mesh; over a part of it the counts of all cells are used and constants are not reproduced at its border. Counts are unbounded instead of short integers.
- DoReinit: the k.p solver, the rotation of the strain and the temperature are inside the function giving the bands of a strained element; the sequence number of the strain simulation is given also where there is no such simulation.
- ComputedSlicesFit: in dimension 3, sides that are neither vertical nor across the z axis are not covered.
- Rounding, overflow, infinities and NaN: all quantities are exact reals; exp, sin and cos are functions known by algebraic laws only.
- MPI reductions, mesh adaptation, option parsing, messages and output.
